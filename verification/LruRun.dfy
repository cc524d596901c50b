/** Clients of an LRU cache shard over whole runs: every reference that was handed
    out and not yet released is counted, and keeps its handle alive. */
module LruRun {
  import opened LruTable
  import opened LruList
  import opened LruPools
  import opened LruHistory
  import opened LruStory
  import opened LruShard

  /** The reference count of every live handle is the number of references held,
      and only live handles are held. */
  ghost predicate Holds(m: Heap, live: set<LRUHandle>, held: Held) {
    && (forall h :: h in live ==> h in m && m[h].refs == multiset(held)[h])
    && (forall h :: h in held ==> h in live)
  }

  lemma HoldsMore(m: Heap, live: set<LRUHandle>, held: Held, m': Heap, e: LRUHandle)
    requires Holds(m, live, held) && e in live && m'.Keys == m.Keys && OthersKept(m, m', e)
    requires e in m && m'[e].refs == m[e].refs + 1
    ensures Holds(m', live, held + [e])
  {
    assert multiset(held + [e]) == multiset(held) + multiset{e};
  }

  lemma HoldsLess(m: Heap, live: set<LRUHandle>, held: Held, m': Heap, live': set<LRUHandle>, i: nat)
    requires Holds(m, live, held) && i < |held| && OthersKept(m, m', held[i])
    requires var e := held[i];
             || (live' == live - {e} && m[e].refs == 1)
             || (live' == live && e in m' && m'[e].refs == m[e].refs - 1)
    requires live' <= m'.Keys
    ensures Holds(m', live', RemovedAt(held, i))
  {
    var e, held' := held[i], RemovedAt(held, i);
    assert held == held[..i] + [e] + held[i + 1..];
    assert multiset(held) == multiset(held') + multiset{e};
    forall h | h in held' ensures h in live' {
      assert multiset(held')[h] > 0;
      assert h in held;
    }
  }

  /** Handles without references may come and go. */
  lemma HoldsSame(m: Heap, live: set<LRUHandle>, held: Held, m': Heap, live': set<LRUHandle>)
    requires Holds(m, live, held) && SameRefs(m, m') && live' <= m'.Keys
    requires forall h :: h in live && h !in live' ==> m[h].refs == 0
    requires forall h :: h in live' && h !in live ==> m'[h].refs == 0
    ensures Holds(m', live', held)
  {
    forall h | h in held ensures h in live' {
      assert multiset(held)[h] > 0;
    }
  }

  /** The high-priority pool is within its capacity, or has no charge at all. */
  predicate PoolFits(poolUsage: nat, capacity: real) {
    poolUsage == 0 || poolUsage as real <= capacity
  }

  /** Over a step: nothing that was freed comes back, and the shard's objects are old
      ones or new. Unless the capacity is lowered, the high-priority pool does not
      outgrow its own, nor, under a strict limit, the shard its capacity. */
  twostate predicate Onward(c: LRUCacheShard)
    reads c, c.table
  {
    && old(c.freed) <= c.freed
    && (c.table.list == old(c.table.list) || fresh(c.table.list))
    && fresh(c.m.Keys - old(c.m.Keys))
    && (old(c.capacity) <= c.capacity && PoolFits(old(c.highPriPoolUsage), old(c.highPriPoolCapacity)) ==>
          PoolFits(c.highPriPoolUsage, c.highPriPoolCapacity))
    && (old(c.capacity) <= c.capacity && c.strictCapacityLimit && old(c.strictCapacityLimit) && old(c.usage <= c.capacity) ==>
          c.usage <= c.capacity)
  }

  /** What was seen during a step accounts for the change of the table. */
  ghost predicate Recorded(contents: Contents, seen: History, contents': Contents) {
    contents' == Filing(contents, seen) && Truthful(contents, seen)
  }

  lemma HeldIsPinned(m: Heap, live: set<LRUHandle>, held: Held, i: nat)
    requires Holds(m, live, held) && i < |held|
    ensures held[i] in live && held[i] in m && m[held[i]].refs > 0
  {
    assert held[i] in held;
  }

  /** What is on the list has no references. */
  lemma ListedIsIdle(d: LRUHandle, m: Heap, order: Order, live: set<LRUHandle>, contents: Contents, k: nat)
    requires States(d, m, order, live, contents) && k <= |order|
    ensures forall h :: h in live && h in Members(order[..k]) ==> h in m && m[h].refs == 0
  {
    forall h | h in live && h in Members(order[..k]) ensures h in m && m[h].refs == 0 {
      assert h in order;
    }
  }

  lemma HoldsEvicted(d: LRUHandle, m: Heap, order: Order, live: set<LRUHandle>, freed: set<LRUHandle>, usage: nat, contents: Contents, held: Held,
                     k: nat, m': Heap, order': Order, live': set<LRUHandle>, freed': set<LRUHandle>, usage': nat, contents': Contents)
    requires Holds(m, live, held) && States(d, m, order, live, contents) && StillThere(m, m') && live' <= m'.Keys
    requires Evicted(k, order, live, freed, usage, contents, order', live', freed', usage', contents')
    ensures Holds(m', live', held) && live' <= live && freed <= freed' && usage' <= usage
    ensures k <= |order| && contents' == Unfiled(contents, order[..k])
  {
    ListedIsIdle(d, m, order, live, contents, k);
    hide States, Unfiled, Charges;
    HoldsSame(m, live, held, m', live');
  }

  lemma HoldsRejected(d: LRUHandle, m: Heap, order: Order, live: set<LRUHandle>, freed: set<LRUHandle>, contents: Contents, held: Held,
                      k: nat, e: LRUHandle, wanted: bool, m': Heap, order': Order, live': set<LRUHandle>, freed': set<LRUHandle>, contents': Contents)
    requires Holds(m, live, held) && States(d, m, order, live, contents) && SameRefs(m, m') && live' <= m'.Keys
    requires Rejected(k, order, live, freed, contents, e, wanted, order', live', freed', contents')
    ensures Holds(m', live', held) && live' <= live && freed <= freed'
  {
    ListedIsIdle(d, m, order, live, contents, k);
    hide States, Unfiled;
    HoldsSame(m, live, held, m', live');
  }

  lemma HoldsAccepted(d: LRUHandle, m: Heap, order: Order, live: set<LRUHandle>, freed: set<LRUHandle>, contents: Contents, held: Held,
                      k: nat, e: LRUHandle, wanted: bool, m': Heap, order1: Order, live': set<LRUHandle>, freed': set<LRUHandle>, contents': Contents)
    requires Holds(m, live, held) && States(d, m, order, live, contents) && SameRefs(m, m') && live' <= m'.Keys
    requires Accepted(k, m, order, live, freed, contents, e, order1, live', freed', contents')
    requires e !in live && e in m' && m'[e].refs == if wanted then 1 else 0
    ensures Holds(m', live', if wanted then held + [e] else held) && e in live' && live' <= live + {e} && freed <= freed'
  {
    ListedIsIdle(d, m, order, live, contents, k);
    hide States, Unfiled, Displaced, SameRefs;
    var live1 := live' - {e};
    HoldsFew(m, live, held, m', live1, e);
    if wanted {
      assert multiset(held + [e]) == multiset(held) + multiset{e};
    }
  }

  lemma HoldsFew(m: Heap, live: set<LRUHandle>, held: Held, m': Heap, live': set<LRUHandle>, e: LRUHandle)
    requires Holds(m, live, held) && SameRefs(m, m') && live' <= m'.Keys && live' <= live
    requires forall h :: h in live && h !in live' ==> m[h].refs == 0
    requires e !in live
    ensures Holds(m', live', held) && multiset(held)[e] == 0
  {
    HoldsSame(m, live, held, m', live');
  }

  // ---- what clients can account for ----------------------------------------------

  /** The handles alive are in the table or held, those on the list in the table and
      not held. */
  lemma Accounts(d: LRUHandle, m: Heap, order: Order, live: set<LRUHandle>, contents: Contents, held: Held)
    requires States(d, m, order, live, contents) && Holds(m, live, held) && forall h :: h in order ==> h in live
    ensures live == Alive(contents, held)
    ensures forall h :: h in order ==> IsFiled(contents, h) && h !in held
    ensures live == Members(order) + Holding(held)
  {
    forall h | h in live ensures h in Alive(contents, held) && (h in order || h in held) && (h in order ==> IsFiled(contents, h) && h !in held) {
      LiveIsProper(d, m, order, live, contents, h);
      assert m[h].refs == multiset(held)[h];
    }
  }

  lemma UnfiledValues(contents: Contents, s: Order)
    requires forall id :: id in contents ==> contents[id].id == id
    ensures Unfiled(contents, s).Values == contents.Values - Members(s)
  {
    hide Unfiled;
    forall h | h in Unfiled(contents, s).Values ensures h in contents.Values - Members(s) {
      var id :| id in Unfiled(contents, s) && Unfiled(contents, s)[id] == h;
      UnfiledHas(contents, s, id);
      assert id in contents.Keys;
    }
    forall h | h in contents.Values - Members(s) ensures h in Unfiled(contents, s).Values {
      var id :| id in contents && contents[id] == h;
      UnfiledHas(contents, s, id);
      assert id in Unfiled(contents, s).Keys;
    }
  }

  /** After evicting the j oldest handles of the list. */
  lemma AfterEvicting(d: LRUHandle, m: Heap, order: Order, live: set<LRUHandle>, usage: nat, contents: Contents, held: Held, j: nat)
    requires States(d, m, order, live, contents) && Holds(m, live, held) && forall h :: h in order ==> h in live
    requires Unique(order) && usage == Weight(live) && j <= |order|
    ensures usage == Charges(order[..j]) + Weight(Alive(Filing(contents, Gones(order[..j])), held))
    ensures j == |order| ==> AllHeld(Filing(contents, Gones(order[..j])), held)
    ensures j == |order| ==> usage == Charges(order) + Weight(Holding(held))
  {
    hide Weight, Charges, Unfiled, Filing;
    Accounts(d, m, order, live, contents, held);
    hide States, Holds;
    var s := order[..j];
    FilingGones(contents, s);
    UnfiledValues(contents, s);
    assert forall i :: 0 <= i < |s| ==> s[i] == order[i] && s[i] in order;
    WeightSplits(s, live);
    assert live - (set h | h in s) == Alive(Unfiled(contents, s), held);
    if j == |order| {
      assert s == order;
      assert live - (set h | h in s) == Holding(held);
    }
  }

  /** Eviction makes room in the clients' terms, and what does not fit afterwards does not
      fit beside what is held. */
  lemma EvictsEnough(d: LRUHandle, m: Heap, order: Order, live: set<LRUHandle>, usage: nat, contents: Contents, held: Held,
                     k: nat, total: nat, capacity: nat)
    requires States(d, m, order, live, contents) && Holds(m, live, held) && forall h :: h in order ==> h in live
    requires Unique(order) && usage == Weight(live) && JustEnough(k, order, usage, total, capacity)
    ensures MakesRoom(contents, held, Gones(order[..k]), total, capacity) && live == Alive(contents, held)
    ensures usage - Charges(order[..k]) + total > capacity <==> Weight(Holding(held)) + total > capacity
  {
    hide Weight, Charges, Filing, AllHeld, Alive, Holding, States, Holds, Unique;
    Accounts(d, m, order, live, contents, held);
    AfterEvicting(d, m, order, live, usage, contents, held, k);
    AfterEvicting(d, m, order, live, usage, contents, held, |order|);
    ChargesGrow(order, k, |order|);
    assert order[..|order|] == order;
    if k > 0 {
      AfterEvicting(d, m, order, live, usage, contents, held, k - 1);
      assert Gones(order[..k])[..k - 1] == Gones(order[..k - 1]);
    }
    assert forall i :: 0 <= i < k ==> order[..k][i] == order[i] && order[i] in order;
  }

  lemma AcceptedTells(d: LRUHandle, m: Heap, order: Order, live: set<LRUHandle>, usage: nat, contents: Contents, held: Held,
                      k: nat, e: LRUHandle, wantHandle: bool, capacity: nat, strict: bool)
    requires States(d, m, order, live, contents) && Holds(m, live, held) && forall h :: h in order ==> h in live
    requires Unique(order) && usage == Weight(live) && JustEnough(k, order, usage, e.total, capacity) && e !in live
    requires !(usage - Charges(order[..k]) + e.total > capacity && (strict || !wantHandle))
    ensures Tells(Op.Insert(e.id, e.total, e.highPri, wantHandle), contents, held, capacity, strict,
                  Gones(order[..k]) + [Placed(e)], if wantHandle then held + [e] else held)
  {
    hide States, Holds, Unique, Weight, Charges, MakesRoom, Alive, Holding;
    EvictsEnough(d, m, order, live, usage, contents, held, k, e.total, capacity);
    var part := Gones(order[..k]) + [Placed(e)];
    assert part[..|part| - 1] == Gones(order[..k]);
  }

  lemma RejectedTells(d: LRUHandle, m: Heap, order: Order, live: set<LRUHandle>, usage: nat, contents: Contents, held: Held,
                      k: nat, e: LRUHandle, wantHandle: bool, capacity: nat, strict: bool)
    requires States(d, m, order, live, contents) && Holds(m, live, held) && forall h :: h in order ==> h in live
    requires Unique(order) && usage == Weight(live) && JustEnough(k, order, usage, e.total, capacity)
    requires usage - Charges(order[..k]) + e.total > capacity && (strict || !wantHandle)
    ensures Tells(Op.Insert(e.id, e.total, e.highPri, wantHandle), contents, held, capacity, strict, Gones(order[..k]), held)
  {
    hide States, Holds, Unique, Weight, Charges, MakesRoom, JustEnough, Alive, Holding;
    EvictsEnough(d, m, order, live, usage, contents, held, k, e.total, capacity);
  }

  lemma ReleaseTells(d: LRUHandle, m: Heap, order: Order, live: set<LRUHandle>, usage: nat, contents: Contents, held: Held,
                     i: nat, force: bool, capacity: nat, strict: bool, last: bool)
    requires States(d, m, order, live, contents) && Holds(m, live, held) && forall h :: h in order ==> h in live
    requires usage == Weight(live) && i < |held| && held[i] in live && held[i] in m
    requires last <==> m[held[i]].refs == 1 && (m[held[i]].inCache ==> usage > capacity || force)
    ensures Tells(Op.Release(i, force), contents, held, capacity, strict, if last then [Gone(held[i])] else [], RemovedAt(held, i))
  {
    hide Weight, States, Holds, Alive, RemovedAt;
    Accounts(d, m, order, live, contents, held);
    LiveIsProper(d, m, order, live, contents, held[i]);
    RefsAreHeld(m, live, held, held[i]);
    LastReference(held, i);
  }

  lemma SweepTells(d: LRUHandle, m: Heap, order: Order, live: set<LRUHandle>, usage: nat, contents: Contents, held: Held,
                   capacity: nat, strict: bool)
    requires States(d, m, order, live, contents) && Holds(m, live, held) && forall h :: h in order ==> h in live
    requires Unique(order) && usage == Weight(live)
    ensures Tells(Op.EraseUnRefEntries, contents, held, capacity, strict, Gones(order), held)
  {
    hide States, Holds, Unique, Weight, Charges, AllHeld, Filing;
    Accounts(d, m, order, live, contents, held);
    AfterEvicting(d, m, order, live, usage, contents, held, |order|);
    assert order[..|order|] == order;
    assert forall i :: 0 <= i < |order| ==> order[i] in order;
  }

  lemma RefsAreHeld(m: Heap, live: set<LRUHandle>, held: Held, h: LRUHandle)
    requires Holds(m, live, held) && h in live
    ensures h in m && m[h].refs == multiset(held)[h]
  {
  }

  lemma LastReference(held: Held, i: nat)
    requires i < |held|
    ensures multiset(held)[held[i]] == 1 <==> held[i] !in RemovedAt(held, i)
  {
    var e, rest := held[i], RemovedAt(held, i);
    assert held == held[..i] + [e] + held[i + 1..];
    assert multiset(held) == multiset(rest) + multiset{e};
    assert e in rest <==> multiset(rest)[e] > 0;
  }

  method Lookup(c: LRUCacheShard, held: Held, id: Id) returns (held': Held, ghost seen: History)
    requires c.Valid() && Holds(c.m, c.live, held)
    modifies c, c.table, c.table.list, c.m.Keys
    ensures c.Valid() && Holds(c.m, c.live, held') && Onward(c) && Recorded(old(c.table.contents), seen, c.table.contents)
    ensures c.capacity == old(c.capacity) && c.strictCapacityLimit == old(c.strictCapacityLimit)
    ensures Tells(Op.Lookup(id), old(c.table.contents), held, old(c.capacity), old(c.strictCapacityLimit), seen, held')
  {
    hide Pooled, States, Balanced, Charges, Weight, Unique, Without, PoolCapacity, Holds, OthersKept, SameRefs,
      StillThere, Filing, Truthful, LRUCacheShard.Mirrored, LRUHandleTable.Valid, LRUCacheShard.Sound;
    c.FiledFacts(id);
    var e := c.Lookup(id);
    seen := [if e == null then Miss(id) else Hit(id, e)];
    FilingOne(c.table.contents, seen[0]);
    if e == null {
      held' := held;
    } else {
      c.LiveFacts(e);
      HoldsMore(old(c.m), c.live, held, c.m, e);
      held' := held + [e];
    }
  }

  method Ref(c: LRUCacheShard, held: Held, i: nat) returns (held': Held, ghost seen: History)
    requires c.Valid() && Holds(c.m, c.live, held) && i < |held|
    modifies c, c.table, c.table.list, c.m.Keys
    ensures c.Valid() && Holds(c.m, c.live, held') && Onward(c) && Recorded(old(c.table.contents), seen, c.table.contents)
    ensures c.capacity == old(c.capacity) && c.strictCapacityLimit == old(c.strictCapacityLimit)
    ensures Tells(Op.Ref(i), old(c.table.contents), held, old(c.capacity), old(c.strictCapacityLimit), seen, held')
  {
    hide Pooled, States, Balanced, Charges, Weight, Unique, Without, PoolCapacity, Holds, OthersKept, SameRefs,
      StillThere, Filing, Truthful, LRUCacheShard.Mirrored, LRUHandleTable.Valid, LRUCacheShard.Sound;
    HeldIsPinned(c.m, c.live, held, i);
    c.LiveFacts(held[i]);
    c.Ref(held[i]);
    c.LiveFacts(held[i]);
    HoldsMore(old(c.m), c.live, held, c.m, held[i]);
    held', seen := held + [held[i]], [];
    FilingNone(c.table.contents);
  }

  method Release(c: LRUCacheShard, held: Held, i: nat, force: bool) returns (held': Held, ghost seen: History)
    requires c.Valid() && Holds(c.m, c.live, held) && i < |held|
    modifies c, c.table, c.table.list, c.m.Keys
    ensures c.Valid() && Holds(c.m, c.live, held') && Onward(c) && Recorded(old(c.table.contents), seen, c.table.contents)
    ensures c.capacity == old(c.capacity) && c.strictCapacityLimit == old(c.strictCapacityLimit)
    ensures Tells(Op.Release(i, force), old(c.table.contents), held, old(c.capacity), old(c.strictCapacityLimit), seen, held')
  {
    hide Pooled, States, Balanced, Charges, Weight, Unique, Without, PoolCapacity, Holds, OthersKept, SameRefs,
      StillThere, Filing, Truthful, LRUCacheShard.Mirrored, LRUHandleTable.Valid, LRUCacheShard.Sound, Entering, Unfile;
    c.Parts();
    HeldIsPinned(c.m, c.live, held, i);
    c.LiveFacts(held[i]);
    c.ListIsLive();
    var last := c.Release(held[i], force);
    ReleaseTells(c.lru, old(c.m), old(c.order), old(c.live), old(c.usage), old(c.table.contents), held, i, force,
                 c.capacity, c.strictCapacityLimit, last);
    c.Parts();
    if !last {
      c.LiveFacts(held[i]);
    }
    HoldsLess(old(c.m), old(c.live), held, c.m, c.live, i);
    held' := RemovedAt(held, i);
    seen := if last then [Gone(held[i])] else [];
    FilingNone(old(c.table.contents));
    FilingOne(old(c.table.contents), Gone(held[i]));
  }

  method Erase(c: LRUCacheShard, held: Held, id: Id) returns (held': Held, ghost seen: History)
    requires c.Valid() && Holds(c.m, c.live, held)
    modifies c, c.table, c.table.list, c.m.Keys
    ensures c.Valid() && Holds(c.m, c.live, held') && Onward(c) && Recorded(old(c.table.contents), seen, c.table.contents)
    ensures c.capacity == old(c.capacity) && c.strictCapacityLimit == old(c.strictCapacityLimit)
    ensures Tells(Op.Erase(id), old(c.table.contents), held, old(c.capacity), old(c.strictCapacityLimit), seen, held')
  {
    hide Pooled, States, Balanced, Charges, Weight, Unique, Without, PoolCapacity, Holds, OthersKept, SameRefs,
      StillThere, Filing, Truthful, LRUCacheShard.Mirrored, LRUHandleTable.Valid, LRUCacheShard.Sound;
    c.Parts();
    c.FiledFacts(id);
    c.Erase(id);
    c.Parts();
    held' := held;
    HoldsSame(old(c.m), old(c.live), held, c.m, c.live);
    if id in old(c.table.contents) {
      seen := [Gone(old(c.table.contents)[id])];
      FilingOne(old(c.table.contents), seen[0]);
    } else {
      seen := [];
      FilingNone(old(c.table.contents));
      assert c.table.contents == old(c.table.contents);
    }
  }

  method Insert(c: LRUCacheShard, held: Held, id: Id, total: nat, highPri: bool, wantHandle: bool) returns (held': Held, ghost seen: History)
    requires c.Valid() && Holds(c.m, c.live, held)
    modifies c, c.table, c.table.list, c.m.Keys
    ensures c.Valid() && Holds(c.m, c.live, held') && Onward(c) && Recorded(old(c.table.contents), seen, c.table.contents)
    ensures c.capacity == old(c.capacity) && c.strictCapacityLimit == old(c.strictCapacityLimit)
    ensures Tells(Op.Insert(id, total, highPri, wantHandle), old(c.table.contents), held, old(c.capacity), old(c.strictCapacityLimit), seen, held')
  {
    hide Pooled, States, Balanced, Charges, Weight, Unique, Without, PoolCapacity, Holds, OthersKept, SameRefs,
      StillThere, Filing, Truthful, LRUCacheShard.Mirrored, LRUHandleTable.Valid, LRUCacheShard.Sound, Entering, Rejected, Accepted, Recorded,
      Unfiled, Loser, Displaced, PinnedPart, Tells;
    c.Parts();
    c.ListIsLive();
    var s, handle, e, k, order1, low1 := c.Insert(id, total, highPri, wantHandle);
    held' := if handle != null then held + [handle] else held;
    c.Parts();
    if c.TurnsAway(old(c.usage) - Charges(old(c.order)[..k]), total, wantHandle) {
      RejectedInsert(c.lru, old(c.m), old(c.order), old(c.live), old(c.freed), old(c.usage), old(c.table.contents), held,
                     k, e, wantHandle, c.m, c.order, c.live, c.freed, c.table.contents, c.capacity, c.strictCapacityLimit);
      seen := Gones(old(c.order)[..k]);
    } else {
      AcceptedIsThere(k, old(c.m), old(c.order), old(c.live), old(c.freed), old(c.table.contents), e, order1, c.live, c.freed, c.table.contents);
      c.LiveFacts(e);
      AcceptedInsert(c.lru, old(c.m), old(c.order), old(c.live), old(c.freed), old(c.usage), old(c.table.contents), held,
                     k, e, wantHandle, c.m, order1, c.live, c.freed, c.table.contents, c.capacity, c.strictCapacityLimit);
      seen := Gones(old(c.order)[..k]) + [Placed(e)];
    }
  }

  lemma RejectedInsert(d: LRUHandle, m: Heap, order: Order, live: set<LRUHandle>, freed: set<LRUHandle>, usage: nat, contents: Contents, held: Held,
                       k: nat, e: LRUHandle, wanted: bool, m': Heap, order': Order, live': set<LRUHandle>, freed': set<LRUHandle>,
                       contents': Contents, capacity: nat, strict: bool)
    requires Holds(m, live, held) && States(d, m, order, live, contents) && SameRefs(m, m') && live' <= m'.Keys
    requires Rejected(k, order, live, freed, contents, e, wanted, order', live', freed', contents')
    requires (forall h :: h in order ==> h in live) && Unique(order) && usage == Weight(live) && JustEnough(k, order, usage, e.total, capacity)
    requires usage - Charges(order[..k]) + e.total > capacity && (strict || !wanted)
    ensures Holds(m', live', held) && live' <= live && freed <= freed' && k <= |order| && Recorded(contents, Gones(order[..k]), contents')
    ensures Tells(Op.Insert(e.id, e.total, e.highPri, wanted), contents, held, capacity, strict, Gones(order[..k]), held)
  {
    hide States, Holds, SameRefs, Rejected, Unique, Weight, Charges, JustEnough, Tells, Recorded;
    HoldsRejected(d, m, order, live, freed, contents, held, k, e, wanted, m', order', live', freed', contents');
    RejectedFiling(k, order, live, freed, contents, e, wanted, order', live', freed', contents');
    RejectedTells(d, m, order, live, usage, contents, held, k, e, wanted, capacity, strict);
  }

  lemma AcceptedIsThere(k: nat, m: Heap, order: Order, live: set<LRUHandle>, freed: set<LRUHandle>, contents: Contents, e: LRUHandle,
                        order': Order, live': set<LRUHandle>, freed': set<LRUHandle>, contents': Contents)
    requires Accepted(k, m, order, live, freed, contents, e, order', live', freed', contents')
    ensures e in live'
  {
    hide Unfiled, Displaced, Loser;
  }

  lemma AcceptedInsert(d: LRUHandle, m: Heap, order: Order, live: set<LRUHandle>, freed: set<LRUHandle>, usage: nat, contents: Contents, held: Held,
                       k: nat, e: LRUHandle, wanted: bool, m': Heap, order1: Order, live': set<LRUHandle>, freed': set<LRUHandle>,
                       contents': Contents, capacity: nat, strict: bool)
    requires Holds(m, live, held) && States(d, m, order, live, contents) && SameRefs(m, m') && live' <= m'.Keys
    requires Accepted(k, m, order, live, freed, contents, e, order1, live', freed', contents')
    requires (forall h :: h in order ==> h in live) && Unique(order) && usage == Weight(live) && JustEnough(k, order, usage, e.total, capacity)
    requires !(usage - Charges(order[..k]) + e.total > capacity && (strict || !wanted))
    requires e !in live && e in m' && m'[e].refs == if wanted then 1 else 0
    ensures Holds(m', live', if wanted then held + [e] else held) && live' <= live + {e} && freed <= freed'
    ensures k <= |order| && Recorded(contents, Gones(order[..k]) + [Placed(e)], contents')
    ensures Tells(Op.Insert(e.id, e.total, e.highPri, wanted), contents, held, capacity, strict,
                  Gones(order[..k]) + [Placed(e)], if wanted then held + [e] else held)
  {
    hide States, Holds, SameRefs, Accepted, Unique, Weight, Charges, JustEnough, Tells, Recorded;
    HoldsAccepted(d, m, order, live, freed, contents, held, k, e, wanted, m', order1, live', freed', contents');
    AcceptedFiling(k, m, order, live, freed, contents, e, order1, live', freed', contents');
    AcceptedTells(d, m, order, live, usage, contents, held, k, e, wanted, capacity, strict);
  }

  method SetCapacity(c: LRUCacheShard, held: Held, capacity: nat) returns (held': Held, ghost seen: History)
    requires c.Valid() && Holds(c.m, c.live, held)
    modifies c, c.table, c.table.list, c.m.Keys
    ensures c.Valid() && Holds(c.m, c.live, held') && Onward(c) && Recorded(old(c.table.contents), seen, c.table.contents)
    ensures c.capacity == capacity && c.strictCapacityLimit == old(c.strictCapacityLimit)
    ensures Tells(Op.SetCapacity(capacity), old(c.table.contents), held, old(c.capacity), old(c.strictCapacityLimit), seen, held')
  {
    hide Pooled, States, Balanced, Charges, Weight, Unique, Without, PoolCapacity, Holds, OthersKept, SameRefs,
      StillThere, Filing, Truthful, LRUCacheShard.Mirrored, LRUHandleTable.Valid, LRUCacheShard.Sound, Evicted, Unfiled;
    c.Parts();
    c.ListIsLive();
    var k := c.SetCapacity(capacity);
    EvictsEnough(c.lru, old(c.m), old(c.order), old(c.live), old(c.usage), old(c.table.contents), held, k, 0, capacity);
    c.Parts();
    held', seen := held, Gones(old(c.order)[..k]);
    HoldsEvicted(c.lru, old(c.m), old(c.order), old(c.live), old(c.freed), old(c.usage), old(c.table.contents), held,
                 k, c.m, c.order, c.live, c.freed, c.usage, c.table.contents);
    FilingGones(old(c.table.contents), old(c.order)[..k]);
    GonesAreTruthful(old(c.table.contents), old(c.order)[..k]);
    if old(c.capacity) <= capacity && c.highPriPoolRatio >= 0.0 {
      PoolCapacityGrows(old(c.capacity), capacity, c.highPriPoolRatio);
    }
  }

  method SetRatio(c: LRUCacheShard, held: Held, ratio: real) returns (held': Held, ghost seen: History, ok: bool)
    requires c.Valid() && Holds(c.m, c.live, held)
    modifies c, c.table, c.table.list, c.m.Keys
    ensures c.Valid() && Holds(c.m, c.live, held') && Onward(c) && Recorded(old(c.table.contents), seen, c.table.contents)
    ensures c.capacity == old(c.capacity) && c.strictCapacityLimit == old(c.strictCapacityLimit)
    ensures Tells(Op.SetRatio(ratio), old(c.table.contents), held, old(c.capacity), old(c.strictCapacityLimit), seen, held')
    ensures ok <==> ratio >= 0.0 || c.capacity == 0
  {
    hide Pooled, States, Balanced, Charges, Weight, Unique, Without, PoolCapacity, Holds, OthersKept, SameRefs,
      StillThere, Filing, Truthful, LRUCacheShard.Mirrored, LRUHandleTable.Valid, LRUCacheShard.Sound, SameStates, Overflowed;
    c.Parts();
    ok := c.SetHighPriorityPoolRatio(ratio);
    c.Parts();
    SameStatesRefs(old(c.m), c.m);
    held', seen := held, [];
    FilingNone(c.table.contents);
    HoldsSame(old(c.m), c.live, held, c.m, c.live);
  }

  method EraseUnRefEntries(c: LRUCacheShard, held: Held) returns (held': Held, ghost seen: History)
    requires c.Valid() && Holds(c.m, c.live, held)
    modifies c, c.table, c.table.list, c.m.Keys
    ensures c.Valid() && Holds(c.m, c.live, held') && Onward(c) && Recorded(old(c.table.contents), seen, c.table.contents)
    ensures c.capacity == old(c.capacity) && c.strictCapacityLimit == old(c.strictCapacityLimit)
    ensures Tells(Op.EraseUnRefEntries, old(c.table.contents), held, old(c.capacity), old(c.strictCapacityLimit), seen, held')
  {
    hide Pooled, States, Balanced, Charges, Weight, Unique, Without, PoolCapacity, Holds, OthersKept, SameRefs,
      StillThere, Filing, Truthful, LRUCacheShard.Mirrored, LRUHandleTable.Valid, LRUCacheShard.Sound, Unfiled;
    c.Parts();
    c.ListIsLive();
    SweepTells(c.lru, c.m, c.order, c.live, c.usage, c.table.contents, held, c.capacity, c.strictCapacityLimit);
    c.EraseUnRefEntries();
    c.Parts();
    SameRefsEvicted(old(c.m), c.m);
    held', seen := held, Gones(old(c.order));
    HoldsSame(old(c.m), old(c.live), held, c.m, c.live);
    FilingGones(old(c.table.contents), old(c.order));
    GonesAreTruthful(old(c.table.contents), old(c.order));
  }

  lemma RejectedFiling(k: nat, order: Order, live: set<LRUHandle>, freed: set<LRUHandle>, contents: Contents, e: LRUHandle, wanted: bool,
                       order': Order, live': set<LRUHandle>, freed': set<LRUHandle>, contents': Contents)
    requires Rejected(k, order, live, freed, contents, e, wanted, order', live', freed', contents')
    ensures k <= |order| && Recorded(contents, Gones(order[..k]), contents') && live' <= live && freed <= freed'
  {
    hide Unfiled, Filing, Truthful;
    FilingGones(contents, order[..k]);
    GonesAreTruthful(contents, order[..k]);
  }

  lemma AcceptedFiling(k: nat, m: Heap, order: Order, live: set<LRUHandle>, freed: set<LRUHandle>, contents: Contents, e: LRUHandle,
                       order': Order, live': set<LRUHandle>, freed': set<LRUHandle>, contents': Contents)
    requires Accepted(k, m, order, live, freed, contents, e, order', live', freed', contents')
    ensures k <= |order| && Recorded(contents, Gones(order[..k]) + [Placed(e)], contents') && e in live' && live' <= live + {e} && freed <= freed'
  {
    hide Unfiled, Filing, Truthful, Displaced, Loser;
    FilingGones(contents, order[..k]);
    GonesAreTruthful(contents, order[..k]);
    FilingOne(Unfiled(contents, order[..k]), Placed(e));
    FilingConcat(contents, Gones(order[..k]), [Placed(e)]);
    TruthfulConcat(contents, Gones(order[..k]), [Placed(e)]);
  }

  lemma FilingNone(contents: Contents)
    ensures Filing(contents, []) == contents && Truthful(contents, [])
  {
  }

  lemma PoolCapacityGrows(capacity: nat, capacity': nat, ratio: real)
    requires capacity <= capacity' && ratio >= 0.0
    ensures PoolCapacity(capacity, ratio) <= PoolCapacity(capacity', ratio)
  {
  }

  lemma SameStatesRefs(m: Heap, m': Heap)
    requires SameStates(m, m')
    ensures SameRefs(m, m')
  {
  }

  // ---- whole runs ------------------------------------------------------------

  predicate NeverLowered(capacity: nat, ops: seq<Op>) {
    forall i :: 0 <= i < |ops| && ops[i].SetCapacity? ==> ops[i].capacity >= CapacityAfter(capacity, ops[..i])
  }

  predicate StaysStrict(strict: bool, ops: seq<Op>) {
    strict && forall i :: 0 <= i < |ops| && ops[i].SetStrictCapacityLimit? ==> ops[i].strict
  }

  lemma OneMoreOp(capacity: nat, strict: bool, ops: seq<Op>, n: nat)
    requires n < |ops|
    ensures CapacityAfter(capacity, ops[..n + 1]) ==
            if ops[n].SetCapacity? then ops[n].capacity else CapacityAfter(capacity, ops[..n])
    ensures StrictAfter(strict, ops[..n + 1]) ==
            if ops[n].SetStrictCapacityLimit? then ops[n].strict else StrictAfter(strict, ops[..n])
    ensures NeverLowered(capacity, ops[..n + 1]) ==>
              NeverLowered(capacity, ops[..n]) && (ops[n].SetCapacity? ==> ops[n].capacity >= CapacityAfter(capacity, ops[..n]))
  {
    assert ops[..n + 1][..n] == ops[..n];
    if NeverLowered(capacity, ops[..n + 1]) {
      forall i | 0 <= i < n && ops[..n][i].SetCapacity? ensures ops[..n][i].capacity >= CapacityAfter(capacity, ops[..n][..i]) {
        assert ops[..n + 1][i] == ops[..n][i] && ops[..n + 1][..i] == ops[..n][..i];
      }
      assert ops[..n + 1][n] == ops[n];
    }
  }

  /** The source asserts that the pool pointer does not reach the dummy head. */
  predicate Asserts(op: Op, capacity: nat) {
    op.SetRatio? ==> op.ratio >= 0.0 || capacity == 0
  }

  method Do(c: LRUCacheShard, held: Held, op: Op) returns (held': Held, ghost seen: History, ok: bool)
    requires c.Valid() && Holds(c.m, c.live, held)
    modifies c, c.table, c.table.list, c.m.Keys
    ensures c.Valid() && Holds(c.m, c.live, held') && Onward(c) && Recorded(old(c.table.contents), seen, c.table.contents)
    ensures c.capacity == if op.SetCapacity? then op.capacity else old(c.capacity)
    ensures c.strictCapacityLimit == if op.SetStrictCapacityLimit? then op.strict else old(c.strictCapacityLimit)
    ensures ok <==> Asserts(op, c.capacity)
    ensures Tells(op, old(c.table.contents), held, old(c.capacity), old(c.strictCapacityLimit), seen, held')
  {
    hide Pooled, States, Balanced, Charges, Weight, Unique, Without, PoolCapacity, Holds, OthersKept, SameRefs,
      StillThere, Filing, Truthful, LRUCacheShard.Mirrored, LRUHandleTable.Valid, LRUCacheShard.Sound;
    ok := true;
    match op
    case Lookup(id) => held', seen := Lookup(c, held, id);
    case Insert(id, total, highPri, wantHandle) => held', seen := Insert(c, held, id, total, highPri, wantHandle);
    case Ref(i) =>
      if i < |held| { held', seen := Ref(c, held, i); } else { held', seen := held, []; FilingNone(c.table.contents); }
    case Release(i, force) =>
      if i < |held| { held', seen := Release(c, held, i, force); } else { held', seen := held, []; FilingNone(c.table.contents); }
    case Erase(id) => held', seen := Erase(c, held, id);
    case EraseUnRefEntries => held', seen := EraseUnRefEntries(c, held);
    case SetCapacity(capacity) => held', seen := SetCapacity(c, held, capacity);
    case SetStrictCapacityLimit(strict) =>
      c.SetStrictCapacityLimit(strict);
      held', seen := held, [];
      FilingNone(c.table.contents);
    case SetRatio(ratio) => held', seen, ok := SetRatio(c, held, ratio);
  }

  /** Whatever clients do with a new shard: what they hold is exactly what is counted
      and has not been freed, what is used is the charge of that and of the table, and
      every operation tells what it must. While the capacity is not lowered, the
      high-priority pool stays within its own, and under a strict limit the shard stays
      within its capacity. The run takes all operations, or stops at one whose assertion
      fails. */
  method Run(capacity: nat, strict: bool, ratio: real, ops: seq<Op>)
    returns (c: LRUCacheShard, held: Held, ghost seen: History, done: nat, ghost parts: seq<History>, ghost helds: seq<Held>)
    ensures fresh(c) && c.Valid() && Holds(c.m, c.live, held) && fresh(Alive(c.table.contents, held))
    ensures forall h :: h in held ==> h in c.live && h !in c.freed
    ensures done <= |ops| && Story(capacity, strict, ops[..done], parts, helds) && held == helds[done]
    ensures c.table.contents == Table(parts) && c.usage == Weight(Alive(c.table.contents, held))
    ensures seen == Flat(parts) && c.table.contents == Filing(map[], seen) && Truthful(map[], seen)
    ensures c.capacity == CapacityAfter(capacity, ops[..done])
    ensures done < |ops| ==> !Asserts(ops[done], CapacityAfter(capacity, ops[..done]))
    ensures NeverLowered(capacity, ops[..done]) ==> PoolFits(c.highPriPoolUsage, c.highPriPoolCapacity)
    ensures StaysStrict(strict, ops[..done]) && NeverLowered(capacity, ops[..done]) ==> c.usage <= c.capacity
  {
    hide Pooled, States, Balanced, Charges, Weight, Unique, Without, PoolCapacity, Holds, OthersKept, SameRefs, StillThere, Filing, Truthful,
      LRUCacheShard.Mirrored, LRUHandleTable.Valid, LRUCacheShard.Sound, NeverLowered, CapacityAfter, StrictAfter, Story, Tells, Table, Flat, Alive;
    c := new LRUCacheShard(capacity, strict, ratio);
    held, seen, parts, helds := [], [], [], [[]];
    c.Parts();
    HoldsNothing(c.m);
    FilingNone(map[]);
    NothingDone(capacity, strict, ops);
    done := 0;
    while done < |ops|
      invariant done <= |ops|
      invariant c.Valid() && Holds(c.m, c.live, held)
      invariant fresh(c) && fresh(c.table) && fresh(c.table.list) && fresh(c.m.Keys)
      invariant Story(capacity, strict, ops[..done], parts, helds) && |helds| == done + 1 && helds[done] == held
      invariant seen == Flat(parts) && c.table.contents == Table(parts)
      invariant c.table.contents == Filing(map[], seen) && Truthful(map[], seen)
      invariant c.capacity == CapacityAfter(capacity, ops[..done]) && c.strictCapacityLimit == StrictAfter(strict, ops[..done])
      invariant NeverLowered(capacity, ops[..done]) ==> PoolFits(c.highPriPoolUsage, c.highPriPoolCapacity)
      invariant StaysStrict(strict, ops[..done]) ==> c.strictCapacityLimit
      invariant StaysStrict(strict, ops[..done]) && NeverLowered(capacity, ops[..done]) ==> c.usage <= c.capacity
    {
      ghost var now: History;
      var ok;
      ghost var before := held;
      held, now, ok := Do(c, held, ops[done]);
      FilingConcat(map[], seen, now);
      TruthfulConcat(map[], seen, now);
      if !ok {
        FailureTells(ops[done], Table(parts), before, CapacityAfter(capacity, ops[..done]), StrictAfter(strict, ops[..done]), now, held);
        break;
      }
      OneMorePart(parts, now);
      StoryGoesOn(capacity, strict, ops, done, parts, helds, now, held);
      OneMoreOp(capacity, strict, ops, done);
      StrictBefore(strict, ops, done);
      seen, parts, helds := seen + now, parts + [now], helds + [held];
      done := done + 1;
    }
    c.Parts();
    c.ListIsLive();
    Accounts(c.lru, c.m, c.order, c.live, c.table.contents, held);
    c.NothingFreedIsLive();
    HeldIsLive(c.m, c.live, held);
  }

  /** An operation whose assertion fails has told nothing. */
  lemma FailureTells(op: Op, contents: Contents, held: Held, capacity: nat, strict: bool, part: History, held': Held)
    requires Tells(op, contents, held, capacity, strict, part, held') && op.SetRatio?
    ensures part == [] && held' == held && Filing(contents, part) == contents
  {
  }

  lemma NothingDone(capacity: nat, strict: bool, ops: seq<Op>)
    ensures CapacityAfter(capacity, ops[..0]) == capacity && StrictAfter(strict, ops[..0]) == strict
    ensures Story(capacity, strict, ops[..0], [], [[]]) && Table([]) == map[] && Flat([]) == []
  {
  }

  lemma StrictBefore(strict: bool, ops: seq<Op>, n: nat)
    requires n < |ops|
    ensures StaysStrict(strict, ops[..n + 1]) ==>
              StaysStrict(strict, ops[..n]) && (ops[n].SetStrictCapacityLimit? ==> ops[n].strict)
  {
    if StaysStrict(strict, ops[..n + 1]) {
      forall i | 0 <= i < n && ops[..n][i].SetStrictCapacityLimit? ensures ops[..n][i].strict {
        assert ops[..n + 1][i] == ops[..n][i];
      }
      assert ops[..n + 1][n] == ops[n];
    }
  }

  lemma HoldsNothing(m: Heap)
    ensures Holds(m, {}, [])
    ensures Weight({}) == 0
  {
  }

  lemma HeldIsLive(m: Heap, live: set<LRUHandle>, held: Held)
    requires Holds(m, live, held)
    ensures forall h :: h in held ==> h in live
  {
  }

  /** What Insert makes of an empty shard of capacity 20 with a high-priority
      handle of charge 10. */
  lemma FirstEntry(k: nat, m: Heap, e: LRUHandle, order1: Order, live: set<LRUHandle>, freed: set<LRUHandle>, contents: Contents,
                   low1: nat, order: Order, low: nat)
    requires e.total == 10 && low1 <= |order1|
    requires Accepted(k, m, [], {}, {}, map[], e, order1, live, freed, contents)
    requires Entering(order1, low1, e, true, 10.0, order, low)
    ensures order == [e] && low == 0 && live == {e} && Weight(live) == 10
  {
    WeightPlus({}, e);
    assert Weight({}) == 0;
    assert {} + {e} == {e};
    assert Unfiled(map[], []) == map[];
    assert order1 == [] && order == [e];
    assert order[0..] == [e] && Charges([e]) == 10;
  }

  method OneEntry(id: Id) returns (c: LRUCacheShard)
    ensures c.Valid() && fresh(c) && fresh(c.table) && fresh(c.table.list) && fresh(c.m.Keys)
    ensures c.usage == 10 && c.highPriPoolRatio == 0.5 && c.low == 0 && |c.order| == 1 && c.order[0].total == 10
  {
    hide Balanced, Weight, Unfiled, Displaced, Loser, SameRefs, Accepted, Rejected, Entering, Charges,
      States, Pooled, Unique, LRUCacheShard.Mirrored, LRUHandleTable.Valid;
    c := new LRUCacheShard(20, false, 0.5);
    c.Parts();
    NothingWeighs();
    ghost var m := c.m;
    var s, handle, e, k, order1, low1 := c.Insert(id, 10, true, false);
    c.Parts();
    FirstEntry(k, m, e, order1, c.live, c.freed, c.table.contents, low1, c.order, c.low);
  }

  lemma NothingWeighs()
    ensures Weight({}) == 0 && Charges([]) == 0
  {
  }

  /** SetCapacity does not push handles out of the high-priority pool: here the
      pool ends up with twice its capacity. */
  method PoolOutgrowsLoweredCapacity(id: Id) returns (c: LRUCacheShard)
    ensures c.Valid() && c.highPriPoolUsage == 10 && c.highPriPoolCapacity == 5.0
  {
    hide Balanced, Weight, Unfiled, Evicted, StillThere, Charges, States, Pooled, Unique, LRUCacheShard.Mirrored,
      LRUHandleTable.Valid;
    c := OneEntry(id);
    OneCharge(c.order);
    var k := c.SetCapacity(10);
  }

  lemma OneCharge(order: Order)
    requires |order| == 1
    ensures Charges(order[..0]) == 0 && Charges(order[0..]) == order[0].total
  {
    assert order[0..] == order;
  }

  // ---- an entry turned away ----------------------------------------------------

  lemma FirstPinned(k: nat, m: Heap, e: LRUHandle, order1: Order, live: set<LRUHandle>, freed: set<LRUHandle>, contents: Contents)
    requires e.total == 10 && Accepted(k, m, [], {}, {}, map[], e, order1, live, freed, contents)
    ensures order1 == [] && live == {e} && Weight(live) == 10 && IsFiled(contents, e)
  {
    WeightPlus({}, e);
    assert Weight({}) == 0;
    assert {} + {e} == {e};
  }

  /** A shard of capacity 10 that holds one pinned entry of charge 10. */
  method OnePinnedEntry(id: Id) returns (c: LRUCacheShard, h: LRUHandle)
    ensures c.Valid() && fresh(c) && fresh(c.table) && fresh(c.table.list) && fresh(c.m.Keys)
    ensures c.capacity == c.usage == 10 && c.order == [] && h.id == id && IsFiled(c.table.contents, h) && h in c.live && h.refs == 1
  {
    hide Balanced, Weight, Unfiled, Displaced, Loser, SameRefs, Accepted, Rejected, Entering, Charges,
      States, Pooled, Unique, PinnedPart, LRUCacheShard.Mirrored, LRUHandleTable.Valid;
    c := new LRUCacheShard(10, false, 0.0);
    c.Parts();
    NothingWeighs();
    ghost var m := c.m;
    var s, handle, e, k, order1, low1 := c.Insert(id, 10, false, true);
    c.Parts();
    FirstPinned(k, m, e, order1, c.live, c.freed, c.table.contents);
    h := handle;
  }

  /** An entry that is turned away is not as if it had been inserted and evicted: the
      older entry under its key is still found. */
  method OlderEntrySurvives(id: Id) returns (c: LRUCacheShard, s: Status, h: LRUHandle, found: LRUHandle?)
    ensures c.Valid() && s == Ok && h.id == id && found == h
  {
    hide Balanced, Weight, Unfiled, SameRefs, Accepted, Rejected, Entering, States, Pooled, Unique, Charges, Without, OthersKept,
      LRUCacheShard.Mirrored, LRUHandleTable.Valid;
    c, h := OnePinnedEntry(id);
    c.LiveFacts(h);
    NothingWeighs();
    ghost var contents, m, order, live, freed := c.table.contents, c.m, c.order, c.live, c.freed;
    c.Parts();
    assert PinnedUnder(contents, m, id);
    var status, handle, e, k, order1, low1 := c.Insert(id, 10, false, false);
    s := status;
    assert PinnedPart(contents, m, c.table.contents);
    c.Parts();
    RejectedFiling(k, order, live, freed, contents, e, false, c.order, c.live, c.freed, c.table.contents);
    found := c.Lookup(id);
  }
}
