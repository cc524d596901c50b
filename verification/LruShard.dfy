/** One shard of the LRU cache (cache/lru_cache.cc, cache/lru_cache.h). All of it
    runs under the shard's mutex. */
module LruShard {
  import opened LruTable
  import opened LruList
  import opened LruPools

  function PoolCapacity(capacity: nat, ratio: real): (r: real)
    ensures r < 0.0 <==> ratio < 0.0 && capacity > 0
    ensures capacity == 0 ==> r == 0.0
  {
    capacity as real * ratio
  }

  /** The pool's capacity is the ratio of one unit, and parts of a capacity add up. */
  lemma PoolCapacityIsShare(a: nat, b: nat, ratio: real)
    ensures PoolCapacity(1, ratio) == ratio
    ensures PoolCapacity(a + b, ratio) == PoolCapacity(a, ratio) + PoolCapacity(b, ratio)
  {
  }

  class LRUCacheShard {
    const lru: LRUHandle  // dummy head of the list
    const table: LRUHandleTable
    var capacity: nat
    var strictCapacityLimit: bool
    var highPriPoolRatio: real
    var highPriPoolCapacity: real
    var usage: nat
    var lruUsage: nat
    var highPriPoolUsage: nat
    var lowPri: LRUHandle  // lru_low_pri_
    ghost var m: Heap
    ghost var order: Order
    ghost var low: nat
    ghost var live: set<LRUHandle>
    ghost var freed: set<LRUHandle>

    /** The handles on the heap are as the ghost heap says. */
    ghost predicate Mirrored()
      reads this`m, m.Keys`next, m.Keys`prev, m.Keys`refs, m.Keys`inCache, m.Keys`inHighPriPool, m.Keys`hasHit
    {
      forall x :: x in m ==> m[x] == Node(x.next, x.prev, x.refs, x.inCache, x.inHighPriPool, x.hasHit)
    }

    lemma MirrorAt(x: LRUHandle)
      requires Mirrored() && x in m
      ensures m[x] == Node(x.next, x.prev, x.refs, x.inCache, x.inHighPriPool, x.hasHit)
    {
    }

    /** Table, list and handles agree, and the counters are exact: `usage` is the
        charge of the live handles and `lruUsage` that of the list. */
    ghost predicate Sound()
      reads this, table, table.list, table.nexts.Keys`nextHash
      reads m.Keys`next, m.Keys`prev, m.Keys`refs, m.Keys`inCache, m.Keys`inHighPriPool, m.Keys`hasHit
    {
      && table.Valid()
      && Mirrored()
      && Balanced(lru, m, order, low, lowPri, highPriPoolUsage, lruUsage, usage, live, freed, table.contents)
      && (highPriPoolRatio > 0.0 ==> highPriPoolCapacity >= 0.0)
    }

    /** Between calls: nothing stays evictable while the shard is over capacity. */
    ghost predicate Valid()
      reads this, table, table.list, table.nexts.Keys`nextHash
      reads m.Keys`next, m.Keys`prev, m.Keys`refs, m.Keys`inCache, m.Keys`inHighPriPool, m.Keys`hasHit
    {
      && Sound()
      && (usage > capacity ==> order == [])
      && highPriPoolCapacity == PoolCapacity(capacity, highPriPoolRatio)
    }

    constructor (capacity: nat, strictCapacityLimit: bool, highPriPoolRatio: real)
      ensures Valid() && live == freed == {} && order == [] && table.contents == map[] && highPriPoolUsage == 0
      ensures this.capacity == capacity && this.strictCapacityLimit == strictCapacityLimit
      ensures this.highPriPoolRatio == highPriPoolRatio
      ensures fresh(table) && fresh(table.list) && fresh(lru)
    {
      hide LRUHandleTable.Consistent, Pooled, States;
      var dummy := new LRUHandle(Id("", 0), 0, false);
      dummy.next, dummy.prev := dummy, dummy;
      lru, lowPri := dummy, dummy;
      table := new LRUHandleTable();
      this.capacity, this.strictCapacityLimit := capacity, strictCapacityLimit;
      this.highPriPoolRatio, highPriPoolCapacity := highPriPoolRatio, PoolCapacity(capacity, highPriPoolRatio);
      usage, lruUsage, highPriPoolUsage := 0, 0, 0;
      m := map[dummy := Node(dummy, dummy, dummy.refs, dummy.inCache, dummy.inHighPriPool, dummy.hasHit)];
      order, low, live, freed := [], 0, {}, {};
      new;
      StartsEmpty(lru, m);
    }

    // ---- single fields of a handle -----------------------------------------

    method SetNext(x: LRUHandle, v: LRUHandle?)
      requires Mirrored() && x in m
      modifies this`m, x`next
      ensures Mirrored() && m == WithNext(old(m), x, v)
    {
      x.next := v;
      m := m[x := m[x].(next := v)];
    }

    method SetPrev(x: LRUHandle, v: LRUHandle?)
      requires Mirrored() && x in m
      modifies this`m, x`prev
      ensures Mirrored() && m == WithPrev(old(m), x, v)
    {
      x.prev := v;
      m := m[x := m[x].(prev := v)];
    }

    method SetInHighPriPool(x: LRUHandle, v: bool)
      requires Mirrored() && x in m
      modifies this`m, x`inHighPriPool
      ensures Mirrored() && m == WithPool(old(m), x, v)
    {
      x.inHighPriPool := v;
      m := m[x := m[x].(pool := v)];
    }

    method SetInCache(x: LRUHandle, v: bool)
      requires Mirrored() && Pooled(lru, m, order, low, lowPri, highPriPoolUsage) && x in m
      modifies this`m, x`inCache
      ensures Mirrored() && Pooled(lru, m, order, low, lowPri, highPriPoolUsage) && m.Keys == old(m.Keys) && OthersKept(old(m), m, x)
      ensures m[x] == old(m)[x].(inCache := v)
    {
      hide Pooled;
      RefitPooled(lru, m, order, low, lowPri, highPriPoolUsage, x, m[x].(inCache := v));
      x.inCache := v;
      m := m[x := m[x].(inCache := v)];
    }

    method SetRefs(x: LRUHandle, v: nat)
      requires Mirrored() && Pooled(lru, m, order, low, lowPri, highPriPoolUsage) && x in m
      modifies this`m, x`refs
      ensures Mirrored() && Pooled(lru, m, order, low, lowPri, highPriPoolUsage) && m.Keys == old(m.Keys) && OthersKept(old(m), m, x)
      ensures m[x] == old(m)[x].(refs := v)
    {
      hide Pooled;
      RefitPooled(lru, m, order, low, lowPri, highPriPoolUsage, x, m[x].(refs := v));
      x.refs := v;
      m := m[x := m[x].(refs := v)];
    }

    method SetHit(x: LRUHandle)
      requires Mirrored() && Pooled(lru, m, order, low, lowPri, highPriPoolUsage) && x in m
      modifies this`m, x`hasHit
      ensures Mirrored() && Pooled(lru, m, order, low, lowPri, highPriPoolUsage) && m.Keys == old(m.Keys) && OthersKept(old(m), m, x)
      ensures m[x] == old(m)[x].(hit := true)
    {
      hide Pooled;
      RefitPooled(lru, m, order, low, lowPri, highPriPoolUsage, x, m[x].(hit := true));
      x.hasHit := true;
      m := m[x := m[x].(hit := true)];
    }

    // ---- the list ----------------------------------------------------------

    /** Take e, between a and b, out of the ring. */
    method Unlink(e: LRUHandle, a: LRUHandle, b: LRUHandle)
      requires Mirrored() && e in m && a in m && b in m && e.prev == a && e.next == b
      modifies this`m, a`next, b`prev, e`next, e`prev
      ensures Mirrored() && m.Keys == old(m.Keys)
      ensures m == Unlinked(old(m), a, b, e)
    {
      hide LRUCacheShard.Mirrored, WithNext, WithPrev;
      SetPrev(b, a);
      SetNext(a, b);
      SetPrev(e, null);
      SetNext(e, null);
    }

    method LRU_Remove(e: LRUHandle) returns (ghost k: nat)
      requires Mirrored() && Pooled(lru, m, order, low, lowPri, highPriPoolUsage) && e in order && lruUsage == Charges(order)
      modifies this`lowPri, this`lruUsage, this`highPriPoolUsage, this`m, this`order, this`low, m.Keys`next, m.Keys`prev
      ensures Mirrored() && Pooled(lru, m, order, low, lowPri, highPriPoolUsage) && lruUsage == Charges(order)
      ensures order == Without(old(order), e)
      ensures SameFlags(old(m), m)
      ensures k < |old(order)| && old(order)[k] == e && low == LowAfter(old(low), k)
      ensures highPriPoolUsage <= old(highPriPoolUsage)
    {
      hide Pooled, Charges, SameFlags, Unlinked, Without, RemovedAt, LRUCacheShard.Mirrored;
      k :| 0 <= k < |order| && order[k] == e;
      RemovePooled(lru, m, order, low, lowPri, highPriPoolUsage, k);
      RingIsApart(lru, m, order, low, lowPri, highPriPoolUsage);
      WithoutIsRemoved(order, k);
      ChargesRemoved(order, k);
      MirrorAt(e);
      if lowPri == e {
        lowPri := e.prev;
      }
      Unlink(e, e.prev, e.next);
      lruUsage := lruUsage - e.total;
      if e.inHighPriPool {
        highPriPoolUsage := highPriPoolUsage - e.total;
      }
      order, low := RemovedAt(order, k), LowAfter(low, k);
    }

    /** Put e into the ring between a and b, in the given pool. */
    method Link(e: LRUHandle, a: LRUHandle, b: LRUHandle, pool: bool)
      requires Mirrored() && e in m && a in m && b in m
      modifies this`m, a`next, b`prev, e`next, e`prev, e`inHighPriPool
      ensures Mirrored() && m.Keys == old(m.Keys)
      ensures m == Entered(old(m), a, b, e, pool)
    {
      hide LRUCacheShard.Mirrored, WithNext, WithPrev, WithPool;
      SetNext(e, b);
      SetPrev(e, a);
      SetNext(a, e);
      SetPrev(b, e);
      SetInHighPriPool(e, pool);
    }

    /** One round of the loop of MaintainPoolSize. */
    method Overflow()
      requires Mirrored() && Pooled(lru, m, order, low, lowPri, highPriPoolUsage) && low < |order|
      modifies this`lowPri, this`highPriPoolUsage, this`m, this`low, m.Keys`inHighPriPool
      ensures Mirrored() && Pooled(lru, m, order, low, lowPri, highPriPoolUsage) && SameStates(old(m), m) && m.Keys == old(m.Keys)
      ensures low == old(low) + 1
    {
      hide Pooled, SameStates, WithPool, LRUCacheShard.Mirrored;
      OverflowPooled(lru, m, order, low, lowPri, highPriPoolUsage);
      MirrorAt(lowPri);
      lowPri := lowPri.next;
      SetInHighPriPool(lowPri, false);
      highPriPoolUsage := highPriPoolUsage - lowPri.total;
      low := low + 1;
    }

    /** The result tells whether the assertion in the loop holds: the pointer never
        reaches the dummy head. */
    method MaintainPoolSize() returns (ok: bool)
      requires Mirrored() && Pooled(lru, m, order, low, lowPri, highPriPoolUsage)
      modifies this`lowPri, this`highPriPoolUsage, this`m, this`low, m.Keys`inHighPriPool
      ensures Mirrored() && Pooled(lru, m, order, low, lowPri, highPriPoolUsage) && SameStates(old(m), m) && m.Keys == old(m.Keys)
      ensures ok <==> highPriPoolCapacity >= 0.0
      ensures ok ==> Overflowed(order, old(low), low, highPriPoolCapacity) && highPriPoolUsage as real <= highPriPoolCapacity
      ensures !ok ==> low == |order| && highPriPoolUsage == 0
    {
      hide Pooled, Charges, SameStates, LRUCacheShard.Mirrored;
      PoolCharge(lru, m, order, low, lowPri, highPriPoolUsage);
      SameStatesItself(m);
      while highPriPoolUsage as real > highPriPoolCapacity
        invariant Mirrored() && Pooled(lru, m, order, low, lowPri, highPriPoolUsage) && SameStates(old(m), m) && m.Keys == old(m.Keys)
        invariant old(low) <= low <= |order| && highPriPoolUsage == Charges(order[low..])
        invariant low > old(low) ==> Charges(order[low - 1..]) as real > highPriPoolCapacity
        decreases |order| - low
      {
        PoolIsEmpty(lru, m, order, low, lowPri, highPriPoolUsage);
        MirrorAt(lowPri);
        if lowPri.next == lru {
          return false;
        }
        ghost var m1 := m;
        Overflow();
        SameStatesTwice(old(m), m1, m);
        PoolCharge(lru, m, order, low, lowPri, highPriPoolUsage);
      }
      ok := true;
    }

    /** Link e in at the newest end, in the high-priority pool. */
    method InsertNewest(e: LRUHandle)
      requires Mirrored() && Pooled(lru, m, order, low, lowPri, highPriPoolUsage) && highPriPoolCapacity >= 0.0
      requires e in m && e != lru && e !in order
      modifies this`lowPri, this`highPriPoolUsage, this`m, this`order, this`low, m.Keys`next, m.Keys`prev, m.Keys`inHighPriPool
      ensures Mirrored() && Pooled(lru, m, order, low, lowPri, highPriPoolUsage) && SameStates(old(m), m)
      ensures order == old(order) + [e] && Overflowed(order, old(low), low, highPriPoolCapacity)
      ensures highPriPoolUsage as real <= highPriPoolCapacity
    {
      hide Pooled, SameStates, Entered, Overflowed, LRUCacheShard.Mirrored;
      EnterHigh(lru, m, order, low, lowPri, highPriPoolUsage, e);
      MirrorAt(lru);
      Link(e, lru.prev, lru, true);
      highPriPoolUsage := highPriPoolUsage + e.total;
      order := order + [e];
      ghost var m1 := m;
      var ok := MaintainPoolSize();
      assert ok;
      SameStatesTwice(old(m), m1, m);
    }

    /** Link e in at the newer end of the low-priority pool. */
    method InsertLow(e: LRUHandle)
      requires Mirrored() && Pooled(lru, m, order, low, lowPri, highPriPoolUsage)
      requires e in m && e != lru && e !in order
      modifies this`lowPri, this`highPriPoolUsage, this`m, this`order, this`low, m.Keys`next, m.Keys`prev, m.Keys`inHighPriPool
      ensures Mirrored() && Pooled(lru, m, order, low, lowPri, highPriPoolUsage) && SameStates(old(m), m)
      ensures old(low) <= |old(order)| && order == InsertedAt(old(order), old(low), e) && low == old(low) + 1
      ensures highPriPoolUsage == old(highPriPoolUsage)
    {
      hide Pooled, SameStates, Entered, InsertedAt, LRUCacheShard.Mirrored;
      RingIsApart(lru, m, order, low, lowPri, highPriPoolUsage);
      EnterLow(lru, m, order, low, lowPri, highPriPoolUsage, e);
      MirrorAt(lowPri);
      Link(e, lowPri, lowPri.next, false);
      order, low := InsertedAt(order, low, e), low + 1;
      lowPri := e;
    }

    method LRU_Insert(e: LRUHandle)
      requires Mirrored() && Pooled(lru, m, order, low, lowPri, highPriPoolUsage) && lruUsage == Charges(order)
      requires highPriPoolRatio > 0.0 ==> highPriPoolCapacity >= 0.0
      requires e in m && e != lru && e !in order
      modifies this`lowPri, this`lruUsage, this`highPriPoolUsage, this`m, this`order, this`low, m.Keys`next, m.Keys`prev, m.Keys`inHighPriPool
      ensures Mirrored() && Pooled(lru, m, order, low, lowPri, highPriPoolUsage) && lruUsage == Charges(order) && SameStates(old(m), m)
      ensures highPriPoolRatio > 0.0 && (e.highPri || e.hasHit) ==>
                order == old(order) + [e] && Overflowed(order, old(low), low, highPriPoolCapacity)
      ensures !(highPriPoolRatio > 0.0 && (e.highPri || e.hasHit)) ==>
                old(low) <= |old(order)| && order == InsertedAt(old(order), old(low), e) && low == old(low) + 1
      ensures (highPriPoolUsage <= old(highPriPoolUsage) || highPriPoolUsage as real <= highPriPoolCapacity)
    {
      hide Pooled, Charges, SameStates, Overflowed, InsertedAt, LRUCacheShard.Mirrored;
      RingIsApart(lru, m, order, low, lowPri, highPriPoolUsage);
      ChargesAppended(order, e);
      ChargesInserted(order, low, e);
      if highPriPoolRatio > 0.0 && (e.highPri || e.hasHit) {
        InsertNewest(e);
      } else {
        InsertLow(e);
      }
      lruUsage := lruUsage + e.total;
    }

    // ---- list and flags beside the table -------------------------------------

    /** LRU_Remove, seen from the table and from the other handles. */
    method Unlist(e: LRUHandle) returns (ghost k: nat)
      requires table.Valid() && Mirrored() && Pooled(lru, m, order, low, lowPri, highPriPoolUsage) && lruUsage == Charges(order)
      requires e in order && e in m
      modifies this`lowPri, this`lruUsage, this`highPriPoolUsage, this`m, this`order, this`low, m.Keys`next, m.Keys`prev
      ensures table.Valid() && unchanged(table)
      ensures Mirrored() && Pooled(lru, m, order, low, lowPri, highPriPoolUsage) && lruUsage == Charges(order)
      ensures order == Without(old(order), e)
      ensures m.Keys == old(m.Keys) && OthersKept(old(m), m, e) && SameState(old(m)[e], m[e]) && m[e].hit == old(m)[e].hit
      ensures k < |old(order)| && old(order)[k] == e && low == LowAfter(old(low), k)
      ensures highPriPoolUsage <= old(highPriPoolUsage)
    {
      hide Pooled, Charges, SameFlags, OthersKept, Without, LRUCacheShard.Mirrored, LRUHandleTable.Valid;
      k := LRU_Remove(e);
      FlagsAreKept(old(m), m, e);
    }

    /** LRU_Insert, seen from the table and from the other handles. */
    method Relist(e: LRUHandle)
      requires table.Valid() && Mirrored() && Pooled(lru, m, order, low, lowPri, highPriPoolUsage) && lruUsage == Charges(order)
      requires (highPriPoolRatio > 0.0 ==> highPriPoolCapacity >= 0.0) && e in m && e != lru && e !in order
      modifies this`lowPri, this`lruUsage, this`highPriPoolUsage, this`m, this`order, this`low, m.Keys`next, m.Keys`prev, m.Keys`inHighPriPool
      ensures table.Valid() && unchanged(table)
      ensures Mirrored() && Pooled(lru, m, order, low, lowPri, highPriPoolUsage) && lruUsage == Charges(order)
      ensures Entering(old(order), old(low), e, highPriPoolRatio > 0.0 && (e.highPri || e.hasHit), highPriPoolCapacity, order, low)
      ensures Listing(old(order), order, e, true)
      ensures m.Keys == old(m.Keys) && OthersKept(old(m), m, e) && SameState(old(m)[e], m[e]) && m[e].hit == old(m)[e].hit
      ensures (highPriPoolUsage <= old(highPriPoolUsage) || highPriPoolUsage as real <= highPriPoolCapacity)
    {
      hide Pooled, Charges, SameStates, OthersKept, Overflowed, InsertedAt, Listing, LRUCacheShard.Mirrored, LRUHandleTable.Valid;
      RingIsApart(lru, m, order, low, lowPri, highPriPoolUsage);
      ListingInserted(order, low, e);
      LRU_Insert(e);
      FlagsAreKept(old(m), m, e);
    }

    /** Off the list if it is there, one more reference, and a hit. */
    method Pin(e: LRUHandle)
      requires table.Valid() && Mirrored() && Pooled(lru, m, order, low, lowPri, highPriPoolUsage) && lruUsage == Charges(order)
      requires e in m && e != lru && (e in order <==> e.refs == 0)
      modifies this`lowPri, this`lruUsage, this`highPriPoolUsage, this`m, this`order, this`low, m.Keys`next, m.Keys`prev, e`refs, e`hasHit
      ensures table.Valid() && unchanged(table)
      ensures Mirrored() && Pooled(lru, m, order, low, lowPri, highPriPoolUsage) && lruUsage == Charges(order)
      ensures order == Without(old(order), e)
      ensures m.Keys == old(m.Keys) && OthersKept(old(m), m, e)
      ensures m[e].refs == old(m)[e].refs + 1 && m[e].inCache == old(m)[e].inCache && m[e].hit
      ensures highPriPoolUsage <= old(highPriPoolUsage)
    {
      hide Pooled, Charges, SameStates, OthersKept, Without, LRUCacheShard.Mirrored, LRUHandleTable.Valid;
      MirrorAt(e);
      if e.refs == 0 {
        ghost var k := Unlist(e);
      } else {
        WithoutAbsent(order, e);
        SameStatesItself(m);
        FlagsAreKept(m, m, e);
      }
      ghost var m1 := m;
      MirrorAt(e);
      SetRefs(e, e.refs + 1);
      OthersKeptTwice(old(m), m1, m, e);
      ghost var m2 := m;
      SetHit(e);
      OthersKeptTwice(old(m), m2, m, e);
    }

    method Unref(e: LRUHandle) returns (last: bool)
      requires table.Valid() && Mirrored() && Pooled(lru, m, order, low, lowPri, highPriPoolUsage) && e in m && e.refs > 0
      modifies this`m, e`refs
      ensures table.Valid() && Mirrored() && Pooled(lru, m, order, low, lowPri, highPriPoolUsage)
      ensures m.Keys == old(m.Keys) && OthersKept(old(m), m, e) && m[e] == old(m)[e].(refs := old(m)[e].refs - 1)
      ensures last <==> m[e].refs == 0
    {
      hide Pooled, OthersKept, LRUCacheShard.Mirrored, LRUHandleTable.Valid;
      MirrorAt(e);
      SetRefs(e, e.refs - 1);
      MirrorAt(e);
      last := e.refs == 0;
    }

    /** Out of the table, and no longer in the cache. */
    method Evacuate(id: Id) returns (e: LRUHandle?)
      requires table.Valid() && Mirrored() && Pooled(lru, m, order, low, lowPri, highPriPoolUsage)
      requires table.nexts.Keys <= m.Keys && (id in table.contents ==> table.contents[id] in m)
      modifies this`m, table, table.list, m.Keys`nextHash, m.Keys`inCache
      ensures table.Valid() && Mirrored() && Pooled(lru, m, order, low, lowPri, highPriPoolUsage) && table.list == old(table.list)
      ensures e == if id in old(table.contents) then old(table.contents)[id] else null
      ensures table.contents == old(table.contents) - {id}
      ensures e == null ==> m == old(m)
      ensures e != null ==> m.Keys == old(m.Keys) && OthersKept(old(m), m, e) && m[e] == old(m)[e].(inCache := false)
    {
      hide Pooled, OthersKept, LRUCacheShard.Mirrored, LRUHandleTable.Valid;
      e := table.Remove(id);
      if e != null {
        SetInCache(e, false);
      }
    }

    /** Off the list, out of the table, and no longer in the cache. */
    method Retire(e: LRUHandle) returns (ghost k: nat)
      requires table.Valid() && Mirrored() && Pooled(lru, m, order, low, lowPri, highPriPoolUsage) && lruUsage == Charges(order)
      requires table.nexts.Keys <= m.Keys && e in m && e in order && IsFiled(table.contents, e)
      modifies this`lowPri, this`lruUsage, this`highPriPoolUsage, this`m, this`order, this`low
      modifies table, table.list, m.Keys`next, m.Keys`prev, m.Keys`nextHash, m.Keys`inCache
      ensures table.Valid() && Mirrored() && Pooled(lru, m, order, low, lowPri, highPriPoolUsage) && lruUsage == Charges(order)
      ensures order == Without(old(order), e) && table.list == old(table.list)
      ensures m.Keys == old(m.Keys) && OthersKept(old(m), m, e) && m[e].refs == old(m)[e].refs
      ensures table.contents == Unfile(old(table.contents), e)
      ensures k < |old(order)| && old(order)[k] == e && low == LowAfter(old(low), k)
      ensures highPriPoolUsage <= old(highPriPoolUsage)
    {
      hide Pooled, Charges, OthersKept, Without, LRUCacheShard.Mirrored, LRUHandleTable.Valid;
      k := Unlist(e);
      ghost var m1 := m;
      var gone := Evacuate(e.id);
      OthersKeptTwice(old(m), m1, m, e);
    }

    /** Out of the table, and off the list if it is there. */
    method Withdraw(id: Id) returns (e: LRUHandle?)
      requires table.Valid() && Mirrored() && Pooled(lru, m, order, low, lowPri, highPriPoolUsage) && lruUsage == Charges(order)
      requires table.nexts.Keys <= m.Keys
      requires id in table.contents ==> var h := table.contents[id]; h in m && h.id == id && (h in order <==> h.refs == 0)
      modifies this`lowPri, this`lruUsage, this`highPriPoolUsage, this`m, this`order, this`low
      modifies table, table.list, m.Keys`next, m.Keys`prev, m.Keys`nextHash, m.Keys`inCache
      ensures table.Valid() && table.list == old(table.list)
      ensures Mirrored() && Pooled(lru, m, order, low, lowPri, highPriPoolUsage) && lruUsage == Charges(order)
      ensures e == if id in old(table.contents) then old(table.contents)[id] else null
      ensures table.contents == old(table.contents) - {id}
      ensures e == null ==> order == old(order) && m == old(m)
      ensures e == null || e.refs > 0 ==>
                low == old(low) && lowPri == old(lowPri) && lruUsage == old(lruUsage) && highPriPoolUsage == old(highPriPoolUsage)
      ensures e != null ==> m.Keys == old(m.Keys) && OthersKept(old(m), m, e)
      ensures e != null ==> m[e].refs == old(m)[e].refs && m[e].hit == old(m)[e].hit && !m[e].inCache
      ensures e != null ==> order == (if e.refs == 0 then Without(old(order), e) else old(order))
      ensures highPriPoolUsage <= old(highPriPoolUsage)
    {
      hide Pooled, Charges, OthersKept, Without, LRUCacheShard.Mirrored, LRUHandleTable.Valid;
      e := Evacuate(id);
      if e != null && e.refs == 0 {
        ghost var m1 := m;
        ghost var k := Unlist(e);
        OthersKeptTwice(old(m), m1, m, e);
      }
    }

    /** e is handed to its deleter, for the first time: it is alive, nobody holds a
        reference to it, and neither the list nor the table leads to it. */
    method Free(e: LRUHandle)
      requires table.Valid() && Mirrored() && usage >= e.total
      requires e !in freed && e.refs == 0 && e !in order && !IsFiled(table.contents, e)
      modifies this`m, this`live, this`freed, this`usage
      ensures table.Valid() && Mirrored() && m == old(m) - {e}
      ensures live == old(live) - {e} && freed == old(freed) + {e} && usage == old(usage) - e.total
    {
      hide LRUHandleTable.Valid;
      usage := usage - e.total;
      m := m - {e};
      live, freed := live - {e}, freed + {e};
    }

    // ---- the operations ----------------------------------------------------

    lemma Parts()
      requires Sound()
      ensures Pooled(lru, m, order, low, lowPri, highPriPoolUsage) && States(lru, m, order, live, table.contents)
      ensures lruUsage == Charges(order) && usage == Weight(live)
      ensures m.Keys == live + {lru} && lru !in live && Unique(order)
    {
      BalancedParts(lru, m, order, low, lowPri, highPriPoolUsage, lruUsage, usage, live, freed, table.contents);
    }

    lemma ListIsLive()
      requires Sound()
      ensures forall h :: h in order ==> h in live
    {
      hide States, Pooled, Charges, Weight, Unique, LRUHandleTable.Valid, LRUCacheShard.Mirrored;
      Parts();
      RingIsApart(lru, m, order, low, lowPri, highPriPoolUsage);
    }

    lemma NothingFreedIsLive()
      requires Sound()
      ensures live !! freed
    {
      hide LRUHandleTable.Valid, Pooled, States, Charges, Weight;
    }

    lemma NodesAreLive()
      requires Sound()
      ensures table.nexts.Keys <= m.Keys
      ensures forall id :: id in table.contents ==> table.contents[id] in live
    {
      hide LRUHandleTable.Consistent, Pooled, Charges, Weight;
      table.NodesAreContents();
      Parts();
    }

    lemma LiveFacts(h: LRUHandle)
      requires Sound() && h in live
      ensures Pooled(lru, m, order, low, lowPri, highPriPoolUsage) && lruUsage == Charges(order) && table.nexts.Keys <= m.Keys
      ensures h in m && h != lru && h.refs == m[h].refs && h.inCache == m[h].inCache && h.hasHit == m[h].hit
      ensures Proper(m[h], h in order, IsFiled(table.contents, h))
    {
      hide Pooled, States, Balanced, Charges, Weight, LRUHandleTable.Valid, LRUCacheShard.Mirrored;
      Parts();
      NodesAreLive();
      LiveIsProper(lru, m, order, live, table.contents, h);
      MirrorAt(h);
    }

    lemma FiledFacts(id: Id)
      requires Sound()
      ensures Pooled(lru, m, order, low, lowPri, highPriPoolUsage) && lruUsage == Charges(order) && table.nexts.Keys <= m.Keys
      ensures id in table.contents ==>
                var h := table.contents[id];
                h in live && h in m && h != lru && h.id == id && h.inCache && h.refs == m[h].refs && (h in order <==> h.refs == 0)
    {
      hide Pooled, States, Balanced, Charges, Weight, LRUHandleTable.Valid, LRUCacheShard.Mirrored;
      Parts();
      NodesAreLive();
      if id in table.contents {
        FiledIsLive(lru, m, order, live, table.contents, id);
        LiveFacts(table.contents[id]);
      }
    }

    method Lookup(id: Id) returns (e: LRUHandle?)
      requires Valid()
      modifies this`lowPri, this`lruUsage, this`highPriPoolUsage, this`m, this`order, this`low, m.Keys
      ensures Valid()
      ensures e == if id in table.contents then table.contents[id] else null
      ensures e == null ==> m == old(m) && order == old(order)
      ensures e != null ==> e in live && e.refs == old(e.refs) + 1 && e.hasHit && order == Without(old(order), e)
      ensures e != null ==> m.Keys == old(m.Keys) && OthersKept(old(m), m, e)
      ensures highPriPoolUsage <= old(highPriPoolUsage)
    {
      hide Pooled, States, Balanced, Charges, Weight, Unique, OthersKept, Without, PoolCapacity,
        LRUCacheShard.Mirrored, LRUHandleTable.Valid;
      e := table.Lookup(id);
      if e != null {
        FiledFacts(id);
        assert e.inCache;
        WithoutNothing(e);
        Pin(e);
        PinBalanced(lru, old(m), old(order), old(low), old(lowPri), old(highPriPoolUsage), old(lruUsage), usage, live, freed, table.contents,
                    m, low, lowPri, highPriPoolUsage, lruUsage, e);
        MirrorAt(e);
      }
    }

    /** An unpinned handle leaves the list, the table and the shard. */
    method Discard(e: LRUHandle) returns (ghost k: nat)
      requires Sound() && e in order && e in live
      modifies this`lowPri, this`lruUsage, this`highPriPoolUsage, this`m, this`order, this`low, this`live, this`freed, this`usage
      modifies table, table.list, m.Keys
      ensures Sound() && table.list == old(table.list)
      ensures order == Without(old(order), e) && e.refs == 0
      ensures live == old(live) - {e} && freed == old(freed) + {e}
      ensures table.contents == Unfile(old(table.contents), e)
      ensures m.Keys == old(m.Keys) - {e} && OthersKept(old(m), m, e)
      ensures usage == old(usage) - e.total
      ensures k < |old(order)| && old(order)[k] == e && low == LowAfter(old(low), k)
      ensures highPriPoolUsage <= old(highPriPoolUsage)
    {
      hide Pooled, States, Balanced, Charges, Weight, Unique, OthersKept, Without, PoolCapacity,
        LRUCacheShard.Mirrored, LRUHandleTable.Valid;
      LiveFacts(e);
      assert e.inCache && e.refs == 0;
      k := Retire(e);
      FreeBalanced(lru, old(m), old(order), old(low), old(lowPri), old(highPriPoolUsage), old(lruUsage), usage, live, freed, old(table.contents),
                   m, low, lowPri, highPriPoolUsage, lruUsage, e);
      Free(e);
    }

    /** Evict the oldest handle: one round of the loops of EvictFromLRU and
        EraseUnRefEntries. */
    method EvictOldest() returns (e: LRUHandle)
      requires Sound() && order != []
      modifies this`lowPri, this`lruUsage, this`highPriPoolUsage, this`m, this`order, this`low, this`live, this`freed, this`usage
      modifies table, table.list, m.Keys
      ensures Sound() && table.list == old(table.list)
      ensures e == old(order)[0] && order == old(order)[1..] && e.refs == 0
      ensures live == old(live) - {e} && freed == old(freed) + {e}
      ensures table.contents == Unfile(old(table.contents), e)
      ensures m.Keys == old(m.Keys) - {e} && OthersKept(old(m), m, e)
      ensures usage == old(usage) - e.total
      ensures low == LowAfter(old(low), 0) && highPriPoolUsage <= old(highPriPoolUsage)
    {
      hide Pooled, States, Balanced, Charges, Weight, Unique, OthersKept, Without, PoolCapacity,
        LRUCacheShard.Mirrored, LRUHandleTable.Valid;
      Parts();
      OldestIsNext(lru, m, order, low, lowPri, highPriPoolUsage);
      MirrorAt(lru);
      e := lru.next;
      ghost var k := Discard(e);
      UniqueAt(old(order), 0, k);
    }

    method Erase(id: Id)
      requires Valid()
      modifies this`lowPri, this`lruUsage, this`highPriPoolUsage, this`m, this`order, this`low, this`live, this`freed, this`usage
      modifies table, table.list, m.Keys
      ensures Valid() && table.list == old(table.list)
      ensures table.contents == old(table.contents) - {id} && SameRefs(old(m), m)
      ensures id !in old(table.contents) ==> m == old(m) && order == old(order) && live == old(live) && freed == old(freed)
      ensures id in old(table.contents) ==>
                var e := old(table.contents)[id];
                && OthersKept(old(m), m, e)
                && if old(e.refs) == 0 then
                     order == Without(old(order), e) && live == old(live) - {e} && freed == old(freed) + {e} && usage == old(usage) - e.total
                   else
                     order == old(order) && live == old(live) && freed == old(freed) && usage == old(usage) && !e.inCache
      ensures highPriPoolUsage <= old(highPriPoolUsage)
    {
      hide Pooled, States, Balanced, Charges, Weight, Unique, OthersKept, Without, PoolCapacity,
        LRUCacheShard.Mirrored, LRUHandleTable.Valid, SameRefs;
      SameRefsItself(m);
      FiledFacts(id);
      var e := Withdraw(id);
      assert e != null ==> table.contents == Unfile(old(table.contents), e);
      if e == null {
        assert table.contents == old(table.contents);
      } else if e.refs == 0 {
        WithoutNothing(e);
        FreeBalanced(lru, old(m), old(order), old(low), old(lowPri), old(highPriPoolUsage), old(lruUsage), usage, live, freed, old(table.contents),
                     m, low, lowPri, highPriPoolUsage, lruUsage, e);
        Free(e);
        assert Sound();
        OthersAndOne(old(m), m, e);
      } else {
        MirrorAt(e);
        OthersAndOne(old(m), m, e);
        UnfileBalanced(lru, old(m), old(order), old(low), old(lowPri), old(highPriPoolUsage), old(lruUsage), usage, live, freed,
                       old(table.contents), m, e);
        assert Sound();
      }
    }

    /** Another reference to a pinned handle. */
    method Ref(e: LRUHandle)
      requires Valid() && e in live && e.refs > 0
      modifies this`m, e`refs
      ensures Valid() && e.refs == old(e.refs) + 1
      ensures m.Keys == old(m.Keys) && OthersKept(old(m), m, e)
    {
      hide Pooled, States, Balanced, Charges, Weight, Unique, OthersKept, Without, PoolCapacity,
        LRUCacheShard.Mirrored, LRUHandleTable.Valid;
      LiveFacts(e);
      WithoutAbsent(order, e);
      SetRefs(e, e.refs + 1);
      PinBalanced(lru, old(m), old(order), old(low), old(lowPri), old(highPriPoolUsage), old(lruUsage), usage, live, freed, table.contents,
                  m, low, lowPri, highPriPoolUsage, lruUsage, e);
      MirrorAt(e);
    }

    /** The last reference to a handle of the cache is gone: out of the table, or
        back on the list. */
    method Unpinned(e: LRUHandle, forceErase: bool) returns (last: bool)
      requires table.Valid() && Mirrored() && Pooled(lru, m, order, low, lowPri, highPriPoolUsage) && lruUsage == Charges(order)
      requires table.nexts.Keys <= m.Keys && (usage > capacity ==> order == [])
      requires highPriPoolRatio > 0.0 ==> highPriPoolCapacity >= 0.0
      requires e in m && e != lru && e !in order && m[e].refs == 0 && m[e].inCache && IsFiled(table.contents, e)
      modifies this`lowPri, this`lruUsage, this`highPriPoolUsage, this`m, this`order, this`low, table, table.list, m.Keys
      ensures table.Valid() && Mirrored() && Pooled(lru, m, order, low, lowPri, highPriPoolUsage) && lruUsage == Charges(order)
      ensures table.list == old(table.list) && m.Keys == old(m.Keys) && OthersKept(old(m), m, e) && m[e].refs == 0
      ensures last <==> usage > capacity || forceErase
      ensures last ==> order == old(order) && table.contents == Unfile(old(table.contents), e)
      ensures !last ==> table.contents == old(table.contents) && m[e].inCache && m[e].hit == old(m)[e].hit
      ensures !last ==> Listing(old(order), order, e, true)
      ensures !last ==> Entering(old(order), old(low), e, highPriPoolRatio > 0.0 && (e.highPri || m[e].hit), highPriPoolCapacity, order, low)
      ensures (highPriPoolUsage <= old(highPriPoolUsage) || highPriPoolUsage as real <= highPriPoolCapacity)
    {
      hide Pooled, Charges, OthersKept, Listing, Entering, LRUCacheShard.Mirrored, LRUHandleTable.Valid;
      MirrorAt(e);
      if usage > capacity || forceErase {
        assert order == [] || forceErase;
        var gone := Evacuate(e.id);
        last := true;
      } else {
        Relist(e);
        last := false;
      }
    }

    /** The part of Release under the mutex, up to the accounting. */
    method Drop(e: LRUHandle, forceErase: bool) returns (last: bool)
      requires table.Valid() && Mirrored() && Pooled(lru, m, order, low, lowPri, highPriPoolUsage) && lruUsage == Charges(order)
      requires table.nexts.Keys <= m.Keys && (usage > capacity ==> order == [])
      requires highPriPoolRatio > 0.0 ==> highPriPoolCapacity >= 0.0
      requires e in m && e != lru && e !in order && e.refs > 0 && (e.inCache <==> IsFiled(table.contents, e))
      modifies this`lowPri, this`lruUsage, this`highPriPoolUsage, this`m, this`order, this`low, table, table.list, m.Keys
      ensures table.Valid() && Mirrored() && Pooled(lru, m, order, low, lowPri, highPriPoolUsage) && lruUsage == Charges(order)
      ensures table.list == old(table.list) && m.Keys == old(m.Keys) && OthersKept(old(m), m, e) && m[e].refs == old(m)[e].refs - 1
      ensures last <==> old(m)[e].refs == 1 && (old(m)[e].inCache ==> usage > capacity || forceErase)
      ensures last ==> order == old(order) && table.contents == Unfile(old(table.contents), e)
      ensures !last ==> table.contents == old(table.contents) && m[e].inCache == old(m)[e].inCache && m[e].hit == old(m)[e].hit
      ensures !last && m[e].refs > 0 ==> order == old(order)
      ensures !last ==> Listing(old(order), order, e, m[e].inCache && m[e].refs == 0)
      ensures !last && m[e].refs == 0 ==>
                m[e].inCache && Entering(old(order), old(low), e, highPriPoolRatio > 0.0 && (e.highPri || m[e].hit), highPriPoolCapacity, order, low)
      ensures (highPriPoolUsage <= old(highPriPoolUsage) || highPriPoolUsage as real <= highPriPoolCapacity)
    {
      hide Pooled, Charges, OthersKept, Listing, Entering, LRUCacheShard.Mirrored, LRUHandleTable.Valid;
      ListingNothing(order, e);
      MirrorAt(e);
      last := Unref(e);
      MirrorAt(e);
      if last && e.inCache {
        ghost var m1 := m;
        last := Unpinned(e, forceErase);
        OthersKeptTwice(old(m), m1, m, e);
      }
    }

    method Release(handle: LRUHandle?, forceErase: bool) returns (last: bool)
      requires Valid() && (handle != null ==> handle in live && handle.refs > 0)
      modifies this`lowPri, this`lruUsage, this`highPriPoolUsage, this`m, this`order, this`low, this`live, this`freed, this`usage
      modifies table, table.list, m.Keys
      ensures Valid() && table.list == old(table.list)
      ensures last <==> handle != null && old(handle.refs) == 1 && (old(handle.inCache) ==> old(usage) > capacity || forceErase)
      ensures handle == null ==> m == old(m) && order == old(order)
      ensures handle != null ==> OthersKept(old(m), m, handle)
      ensures last ==> live == old(live) - {handle} && freed == old(freed) + {handle} && usage == old(usage) - handle.total
      ensures last ==> order == old(order) && table.contents == Unfile(old(table.contents), handle)
      ensures !last ==> live == old(live) && freed == old(freed) && usage == old(usage) && table.contents == old(table.contents)
      ensures !last && handle != null ==> handle.refs == old(handle.refs) - 1 && handle.inCache == old(handle.inCache)
      ensures !last && handle != null && handle.refs > 0 ==> order == old(order)
      ensures !last && handle != null && handle.refs == 0 ==>
                Entering(old(order), old(low), handle, highPriPoolRatio > 0.0 && (handle.highPri || handle.hasHit), highPriPoolCapacity, order, low)
      ensures (highPriPoolUsage <= old(highPriPoolUsage) || highPriPoolUsage as real <= highPriPoolCapacity)
    {
      hide Pooled, States, Balanced, Charges, Weight, Unique, OthersKept, Without, PoolCapacity,
        LRUCacheShard.Mirrored, LRUHandleTable.Valid, Listing, Entering;
      if handle == null {
        return false;
      }
      var e: LRUHandle := handle;
      LiveFacts(e);
      WithoutAbsent(order, e);
      last := Drop(e, forceErase);
      MirrorAt(e);
      if last {
        FreeBalanced(lru, old(m), old(order), old(low), old(lowPri), old(highPriPoolUsage), old(lruUsage), usage, live, freed, old(table.contents),
                     m, low, lowPri, highPriPoolUsage, lruUsage, e);
        Free(e);
      } else {
        UnpinBalanced(lru, old(m), old(order), old(low), old(lowPri), old(highPriPoolUsage), old(lruUsage), usage, live, freed, table.contents,
                      m, order, low, lowPri, highPriPoolUsage, lruUsage, e);
      }
    }

    lemma ListIsEmpty()
      requires Sound()
      ensures lru.next != lru <==> order != []
    {
      hide Pooled, States, Balanced, Charges, Weight, LRUHandleTable.Valid, LRUCacheShard.Mirrored;
      Parts();
      OldestIsNext(lru, m, order, low, lowPri, highPriPoolUsage);
      MirrorAt(lru);
    }

    method EvictFromLRU(charge: nat) returns (ghost k: nat)
      requires Sound()
      modifies this`lowPri, this`lruUsage, this`highPriPoolUsage, this`m, this`order, this`low, this`live, this`freed, this`usage
      modifies table, table.list, m.Keys
      ensures Sound() && table.list == old(table.list) && StillThere(old(m), m) && m.Keys <= old(m.Keys)
      ensures Evicted(k, old(order), old(live), old(freed), old(usage), old(table.contents), order, live, freed, usage, table.contents)
      ensures JustEnough(k, old(order), old(usage), charge, capacity)
      ensures low == (if k < old(low) then old(low) - k else 0) && highPriPoolUsage <= old(highPriPoolUsage)
    {
      hide Pooled, States, Balanced, Charges, Weight, Unique, OthersKept, Without, PoolCapacity,
        LRUCacheShard.Mirrored, LRUHandleTable.Valid, Evicted, StillThere, LRUCacheShard.Sound;
      k := 0;
      NoneEvicted(order, live, freed, usage, table.contents);
      StillThereItself(m);
      ListIsEmpty();
      while usage + charge > capacity && lru.next != lru
        invariant Sound() && table.list == old(table.list) && StillThere(old(m), m) && m.Keys <= old(m.Keys)
        invariant Evicted(k, old(order), old(live), old(freed), old(usage), old(table.contents), order, live, freed, usage, table.contents)
        invariant k + |order| == |old(order)| && usage + Charges(old(order)[..k]) == old(usage)
        invariant low == (if k < old(low) then old(low) - k else 0) && highPriPoolUsage <= old(highPriPoolUsage)
        invariant k > 0 ==> old(usage) - Charges(old(order)[..k - 1]) + charge > capacity
        invariant lru.next != lru <==> order != []
        decreases |order|
      {
        ghost var order1, live1, freed1, usage1, contents1, m1 := order, live, freed, usage, table.contents, m;
        var e := EvictOldest();
        OneMoreEvicted(k, old(order), old(live), old(freed), old(usage), old(table.contents), order1, live1, freed1, usage1, contents1, e);
        StillThereOneLess(old(m), m1, m, e);
        k := k + 1;
        ListIsEmpty();
      }
    }

    method SetCapacity(capacity: nat) returns (ghost k: nat)
      requires Valid()
      modifies this`lowPri, this`lruUsage, this`highPriPoolUsage, this`m, this`order, this`low, this`live, this`freed, this`usage
      modifies this`capacity, this`highPriPoolCapacity
      modifies table, table.list, m.Keys
      ensures Valid() && this.capacity == capacity && table.list == old(table.list) && StillThere(old(m), m)
      ensures Evicted(k, old(order), old(live), old(freed), old(usage), old(table.contents), order, live, freed, usage, table.contents)
      ensures JustEnough(k, old(order), old(usage), 0, capacity)
      ensures old(low) <= |old(order)| && highPriPoolUsage == Charges(old(order)[Max(k, old(low))..]) <= old(highPriPoolUsage)
      ensures highPriPoolUsage as real <= highPriPoolCapacity <==>
                Charges(old(order)[Max(k, old(low))..]) as real <= PoolCapacity(capacity, highPriPoolRatio)
    {
      hide Pooled, States, Balanced, Charges, Weight, Unique, OthersKept, Without, PoolCapacity,
        LRUCacheShard.Mirrored, LRUHandleTable.Valid, StillThere;
      this.capacity := capacity;
      highPriPoolCapacity := PoolCapacity(capacity, highPriPoolRatio);
      Parts();
      PoolCharge(lru, m, order, low, lowPri, highPriPoolUsage);
      k := EvictFromLRU(0);
      Parts();
      PoolCharge(lru, m, order, low, lowPri, highPriPoolUsage);
      assert order[low..] == old(order)[Max(k, old(low))..];
    }

    method SetStrictCapacityLimit(strictCapacityLimit: bool)
      requires Valid()
      modifies this`strictCapacityLimit
      ensures Valid() && this.strictCapacityLimit == strictCapacityLimit
    {
      hide Pooled, States, Balanced, Charges, Weight, Unique, OthersKept, Without, PoolCapacity,
        LRUCacheShard.Mirrored, LRUHandleTable.Valid;
      this.strictCapacityLimit := strictCapacityLimit;
    }

    /** MaintainPoolSize, seen from the table and the counters. */
    method Repool() returns (ok: bool)
      requires table.Valid() && Mirrored()
      requires Balanced(lru, m, order, low, lowPri, highPriPoolUsage, lruUsage, usage, live, freed, table.contents)
      modifies this`lowPri, this`highPriPoolUsage, this`m, this`low, m.Keys`inHighPriPool
      ensures table.Valid() && Mirrored() && SameStates(old(m), m)
      ensures Balanced(lru, m, order, low, lowPri, highPriPoolUsage, lruUsage, usage, live, freed, table.contents)
      ensures ok <==> highPriPoolCapacity >= 0.0
      ensures ok ==> Overflowed(order, old(low), low, highPriPoolCapacity) && highPriPoolUsage as real <= highPriPoolCapacity
      ensures !ok ==> low == |order| && highPriPoolUsage == 0
    {
      hide Pooled, States, Balanced, Charges, Weight, Unique, LRUCacheShard.Mirrored, LRUHandleTable.Valid, SameStates, Overflowed;
      BalancedParts(lru, m, order, low, lowPri, highPriPoolUsage, lruUsage, usage, live, freed, table.contents);
      ok := MaintainPoolSize();
      RepoolBalanced(lru, old(m), old(order), old(low), old(lowPri), old(highPriPoolUsage), old(lruUsage), usage, live, freed, table.contents,
                     m, low, lowPri, highPriPoolUsage);
    }

    /** The result tells whether the assertion of MaintainPoolSize holds. */
    method SetHighPriorityPoolRatio(highPriPoolRatio: real) returns (ok: bool)
      requires Valid()
      modifies this`highPriPoolRatio, this`highPriPoolCapacity
      modifies this`lowPri, this`highPriPoolUsage, this`m, this`low, m.Keys`inHighPriPool
      ensures Valid() && this.highPriPoolRatio == highPriPoolRatio && SameStates(old(m), m)
      ensures ok <==> highPriPoolRatio >= 0.0 || capacity == 0
      ensures ok ==> Overflowed(order, old(low), low, highPriPoolCapacity) && highPriPoolUsage as real <= highPriPoolCapacity
      ensures !ok ==> low == |order| && highPriPoolUsage == 0
    {
      hide Pooled, States, Balanced, Charges, Weight, Unique, OthersKept, Without, PoolCapacity,
        LRUCacheShard.Mirrored, LRUHandleTable.Valid, SameStates, Overflowed;
      this.highPriPoolRatio := highPriPoolRatio;
      highPriPoolCapacity := PoolCapacity(capacity, highPriPoolRatio);
      ok := Repool();
    }

    /** Exactly the unpinned handles go. */
    method EraseUnRefEntries()
      requires Valid()
      modifies this`lowPri, this`lruUsage, this`highPriPoolUsage, this`m, this`order, this`low, this`live, this`freed, this`usage
      modifies table, table.list, m.Keys
      ensures Valid() && table.list == old(table.list) && StillThere(old(m), m)
      ensures order == [] && live == Pinned(old(m), old(live)) && freed == old(freed) + (old(live) - live)
      ensures table.contents == Unfiled(old(table.contents), old(order)) && usage <= old(usage)
      ensures highPriPoolUsage <= old(highPriPoolUsage)
    {
      hide Pooled, States, Balanced, Charges, Weight, Unique, OthersKept, Without, PoolCapacity,
        LRUCacheShard.Mirrored, LRUHandleTable.Valid, Evicted, StillThere, Unfiled, LRUCacheShard.Sound;
      ghost var k := 0;
      NoneEvicted(order, live, freed, usage, table.contents);
      StillThereItself(m);
      ListIsEmpty();
      PinnedParts();
      while lru.next != lru
        invariant Sound() && table.list == old(table.list) && StillThere(old(m), m) && m.Keys <= old(m.Keys)
        invariant Evicted(k, old(order), old(live), old(freed), old(usage), old(table.contents), order, live, freed, usage, table.contents)
        invariant k + |order| == |old(order)| && highPriPoolUsage <= old(highPriPoolUsage)
        invariant lru.next != lru <==> order != []
        decreases |order|
      {
        ghost var order1, live1, freed1, usage1, contents1, m1 := order, live, freed, usage, table.contents, m;
        var e := EvictOldest();
        OneMoreEvicted(k, old(order), old(live), old(freed), old(usage), old(table.contents), order1, live1, freed1, usage1, contents1, e);
        StillThereOneLess(old(m), m1, m, e);
        k := k + 1;
        ListIsEmpty();
      }
      AllEvicted(k, old(order), old(live), old(freed), old(usage), old(table.contents), order, live, freed, usage, table.contents);
    }

    /** What the handles that somebody holds weigh. */
    method GetPinnedUsage() returns (r: nat)
      requires Valid()
      ensures r == Weight(Pinned(m, live))
    {
      hide Pooled, States, Balanced, Charges, Weight, Unique, OthersKept, Without, PoolCapacity,
        LRUCacheShard.Mirrored, LRUHandleTable.Valid;
      PinnedWeight(lru, m, order, low, lowPri, highPriPoolUsage, lruUsage, usage, live, freed, table.contents);
      r := usage - lruUsage;
    }

    lemma PinnedParts()
      requires Sound()
      ensures Members(order) == live - Pinned(m, live)
    {
      hide Pooled, States, Balanced, Charges, Weight, Unique, OthersKept, Without, PoolCapacity,
        LRUCacheShard.Mirrored, LRUHandleTable.Valid;
      PinnedWeight(lru, m, order, low, lowPri, highPriPoolUsage, lruUsage, usage, live, freed, table.contents);
    }

    // ---- insertion -----------------------------------------------------------

    method AddToTable(e: LRUHandle) returns (displaced: LRUHandle?)
      requires table.Valid() && Mirrored() && table.nexts.Keys <= m.Keys && e !in m
      modifies table, table.list, e`nextHash, m.Keys`nextHash
      ensures table.Valid() && Mirrored() && (table.list == old(table.list) || fresh(table.list)) && unchanged(this)
      ensures displaced == if e.id in old(table.contents) then old(table.contents)[e.id] else null
      ensures table.contents == old(table.contents)[e.id := e]
    {
      hide LRUCacheShard.Mirrored, LRUHandleTable.Valid;
      displaced := table.Insert(e);
    }

    /** A displaced handle is no longer in the cache, and off the list if it is there. */
    method Displace(e: LRUHandle)
      requires table.Valid() && Mirrored() && Pooled(lru, m, order, low, lowPri, highPriPoolUsage) && lruUsage == Charges(order)
      requires e in m && (e in order <==> e.refs == 0)
      modifies this`lowPri, this`lruUsage, this`highPriPoolUsage, this`m, this`order, this`low, m.Keys`next, m.Keys`prev, m.Keys`inCache
      ensures table.Valid() && unchanged(table) && Mirrored() && Pooled(lru, m, order, low, lowPri, highPriPoolUsage) && lruUsage == Charges(order)
      ensures m.Keys == old(m.Keys) && OthersKept(old(m), m, e) && m[e].refs == old(m)[e].refs && m[e].hit == old(m)[e].hit && !m[e].inCache
      ensures order == if e.refs == 0 then Without(old(order), e) else old(order)
      ensures e.refs > 0 ==> low == old(low) && lowPri == old(lowPri) && lruUsage == old(lruUsage) && highPriPoolUsage == old(highPriPoolUsage)
      ensures highPriPoolUsage <= old(highPriPoolUsage)
    {
      hide Pooled, Charges, OthersKept, Without, LRUCacheShard.Mirrored, LRUHandleTable.Valid;
      SetInCache(e, false);
      assert table.Valid();
      if e.refs == 0 {
        ghost var m1 := m;
        ghost var k := Unlist(e);
        OthersKeptTwice(old(m), m1, m, e);
      }
    }

    /** What Insert does about a displaced handle. */
    method Settle(e: LRUHandle, ghost contents: Contents)
      requires table.Valid() && Mirrored() && Balanced(lru, m, order, low, lowPri, highPriPoolUsage, lruUsage, usage, live, freed, contents)
      requires e in live && IsFiled(contents, e) && !IsFiled(table.contents, e)
      modifies this`lowPri, this`lruUsage, this`highPriPoolUsage, this`m, this`order, this`low, this`live, this`freed, this`usage
      modifies m.Keys`next, m.Keys`prev, m.Keys`inCache
      ensures table.Valid() && unchanged(table) && Mirrored()
      ensures Balanced(lru, m, order, low, lowPri, highPriPoolUsage, lruUsage, usage, live, freed, contents - {e.id})
      ensures e in old(m) && (if old(m)[e].refs == 0 then
                order == Without(old(order), e) && live == old(live) - {e} && freed == old(freed) + {e}
              else
                order == old(order) && live == old(live) && freed == old(freed))
      ensures m.Keys <= old(m.Keys) && SameRefs(old(m), m) && usage <= old(usage)
      ensures highPriPoolUsage <= old(highPriPoolUsage)
    {
      hide Pooled, States, Balanced, Charges, Weight, Unique, OthersKept, Without, PoolCapacity,
        LRUCacheShard.Mirrored, LRUHandleTable.Valid, SameRefs;
      BalancedParts(lru, m, order, low, lowPri, highPriPoolUsage, lruUsage, usage, live, freed, contents);
      LiveIsProper(lru, m, order, live, contents, e);
      MirrorAt(e);
      Displace(e);
      MirrorAt(e);
      OthersAndOne(old(m), m, e);
      if e.refs == 0 {
        FreeBalanced(lru, old(m), old(order), old(low), old(lowPri), old(highPriPoolUsage), old(lruUsage), usage, live, freed, contents,
                     m, low, lowPri, highPriPoolUsage, lruUsage, e);
        Free(e);
        OthersAndOne(old(m), m, e);
      } else {
        UnfileBalanced(lru, old(m), old(order), old(low), old(lowPri), old(highPriPoolUsage), old(lruUsage), usage, live, freed, contents, m, e);
      }
    }

    /** e takes its place in the table, and what was there before loses it. */
    method Replace(e: LRUHandle) returns (overwritten: bool)
      requires Sound() && e !in m && e !in freed
      modifies this`lowPri, this`lruUsage, this`highPriPoolUsage, this`m, this`order, this`low, this`live, this`freed, this`usage
      modifies table, table.list, e`nextHash, m.Keys
      ensures table.Valid() && Mirrored() && (table.list == old(table.list) || fresh(table.list))
      ensures table.contents == old(table.contents)[e.id := e] && (overwritten <==> e.id in old(table.contents))
      ensures Balanced(lru, m, order, low, lowPri, highPriPoolUsage, lruUsage, usage, live, freed, old(table.contents) - {e.id})
      ensures order == Displaced(old(table.contents), old(m), old(order), e.id)
      ensures live == old(live) - Loser(old(table.contents), old(m), e.id) && freed == old(freed) + Loser(old(table.contents), old(m), e.id)
      ensures e !in freed && m.Keys <= old(m.Keys) && SameRefs(old(m), m) && usage <= old(usage)
      ensures highPriPoolUsage <= old(highPriPoolUsage)
    {
      hide Pooled, States, Balanced, Charges, Weight, Unique, OthersKept, Without, PoolCapacity,
        LRUCacheShard.Mirrored, LRUHandleTable.Valid, SameRefs;
      SameRefsItself(m);
      FiledFacts(e.id);
      var displaced := AddToTable(e);
      overwritten := displaced != null;
      if displaced != null {
        Settle(displaced, old(table.contents));
      } else {
        assert old(table.contents) - {e.id} == old(table.contents);
      }
    }

    /** The ghost heap learns of e. */
    ghost method Adopt(e: LRUHandle)
      requires table.Valid() && Mirrored() && Pooled(lru, m, order, low, lowPri, highPriPoolUsage) && e !in m && e.next == null == e.prev
      modifies this`m, this`live
      ensures table.Valid() && Mirrored() && Pooled(lru, m, order, low, lowPri, highPriPoolUsage)
      ensures m == old(m)[e := Node(null, null, e.refs, e.inCache, e.inHighPriPool, e.hasHit)]
      ensures e != lru && e !in order && live == old(live) + {e}
    {
      hide Pooled, LRUHandleTable.Valid;
      ghost var n := Node(null, null, e.refs, e.inCache, e.inHighPriPool, e.hasHit);
      AdoptPooled(lru, m, order, low, lowPri, highPriPoolUsage, e, n);
      m := m[e := n];
      live := live + {e};
    }

    /** e becomes a handle of the shard: on the list, or pinned for the caller. */
    method Enter(e: LRUHandle, pinned: bool)
      requires table.Valid() && Mirrored() && Pooled(lru, m, order, low, lowPri, highPriPoolUsage) && lruUsage == Charges(order)
      requires (highPriPoolRatio > 0.0 ==> highPriPoolCapacity >= 0.0) && e !in m
      requires e.next == null == e.prev && e.refs == 0 && e.inCache && !e.hasHit
      modifies this`lowPri, this`lruUsage, this`highPriPoolUsage, this`m, this`order, this`low, this`live, this`usage, e, m.Keys
      ensures table.Valid() && unchanged(table) && Mirrored() && Pooled(lru, m, order, low, lowPri, highPriPoolUsage) && lruUsage == Charges(order)
      ensures m.Keys == old(m.Keys) + {e} && OthersKept(old(m), m, e) && live == old(live) + {e} && usage == old(usage) + e.total
      ensures m[e].inCache && m[e].refs == (if pinned then 1 else 0) && Listing(old(order), order, e, !pinned)
      ensures pinned ==> order == old(order)
      ensures !pinned ==> Entering(old(order), old(low), e, highPriPoolRatio > 0.0 && e.highPri, highPriPoolCapacity, order, low)
      ensures (highPriPoolUsage <= old(highPriPoolUsage) || highPriPoolUsage as real <= highPriPoolCapacity)
    {
      hide Pooled, Charges, OthersKept, Listing, Entering, LRUCacheShard.Mirrored, LRUHandleTable.Valid;
      ListingNothing(order, e);
      Adopt(e);
      ghost var m1 := m;
      if pinned {
        SetRefs(e, e.refs + 1);
      } else {
        Relist(e);
      }
      AdoptKeeps(old(m), e, m1[e], m);
      usage := usage + e.total;
    }

    /** Insert, once it is clear that e goes into the cache. */
    method Accept(e: LRUHandle, pinned: bool) returns (overwritten: bool, ghost low1: nat)
      requires Sound() && e !in m && e !in freed
      requires e.next == null == e.prev && e.refs == 0 && e.inCache && !e.hasHit
      modifies this`lowPri, this`lruUsage, this`highPriPoolUsage, this`m, this`order, this`low, this`live, this`freed, this`usage
      modifies table, table.list, e, m.Keys
      ensures Sound() && (table.list == old(table.list) || fresh(table.list))
      ensures table.contents == old(table.contents)[e.id := e] && (overwritten <==> e.id in old(table.contents))
      ensures live == old(live) - Loser(old(table.contents), old(m), e.id) + {e} && freed == old(freed) + Loser(old(table.contents), old(m), e.id)
      ensures e.refs == (if pinned then 1 else 0) && usage <= old(usage) + e.total
      ensures m.Keys <= old(m.Keys) + {e} && SameRefs(old(m), m)
      ensures pinned ==> order == Displaced(old(table.contents), old(m), old(order), e.id)
      ensures low1 <= |Displaced(old(table.contents), old(m), old(order), e.id)|
      ensures !pinned ==> Entering(Displaced(old(table.contents), old(m), old(order), e.id), low1, e,
                                   highPriPoolRatio > 0.0 && e.highPri, highPriPoolCapacity, order, low)
      ensures (highPriPoolUsage <= old(highPriPoolUsage) || highPriPoolUsage as real <= highPriPoolCapacity)
    {
      hide Pooled, States, Balanced, Charges, Weight, Unique, OthersKept, Without, PoolCapacity,
        LRUCacheShard.Mirrored, LRUHandleTable.Valid, SameRefs, Loser, Displaced, Listing, Entering;
      overwritten := Replace(e);
      low1 := low;
      PutBack(old(table.contents), e);
      ghost var usage1 := usage;
      ghost var m1, order1, lowPri1, poolUsage1, lruUsage1, live1, freed1 := m, order, lowPri, highPriPoolUsage, lruUsage, live, freed;
      BalancedParts(lru, m, order, low, lowPri, highPriPoolUsage, lruUsage, usage, live, freed, old(table.contents) - {e.id});
      RingIsApart(lru, m, order, low, lowPri, highPriPoolUsage);
      Enter(e, pinned);
      FileBalanced(lru, m1, order1, low1, lowPri1, poolUsage1, lruUsage1, usage1, live1, freed1, old(table.contents) - {e.id},
                   m, order, low, lowPri, highPriPoolUsage, lruUsage, e);
      SameRefsEnter(old(m), m1, m, e);
      MirrorAt(e);
    }

    /** A handle that never got in goes straight to its deleter. */
    method Refuse(e: LRUHandle)
      requires Sound() && e !in m && e !in freed && e.refs == 0
      modifies e`inCache, this`freed
      ensures Sound() && freed == old(freed) + {e} && !e.inCache
    {
      hide Pooled, States, Charges, Weight, Unique, LRUHandleTable.Valid;
      BalancedParts(lru, m, order, low, lowPri, highPriPoolUsage, lruUsage, usage, live, freed, table.contents);
      e.inCache := false;
      freed := freed + {e};
    }

    /** Whether Insert turns a new handle away: it does not fit, and either must
        not overflow the shard or would not be pinned. */
    predicate TurnsAway(usage: nat, total: nat, wantHandle: bool)
      reads this`capacity, this`strictCapacityLimit
    {
      usage + total > capacity && (strictCapacityLimit || !wantHandle)
    }

    method Insert(id: Id, total: nat, highPri: bool, wantHandle: bool)
      returns (s: Status, handle: LRUHandle?, ghost e: LRUHandle, ghost k: nat, ghost order1: Order, ghost low1: nat)
      requires Valid()
      modifies this`lowPri, this`lruUsage, this`highPriPoolUsage, this`m, this`order, this`low, this`live, this`freed, this`usage
      modifies table, table.list, m.Keys
      ensures Valid() && (table.list == old(table.list) || fresh(table.list)) && SameRefs(old(m), m)
      ensures fresh(e) && e.id == id && e.total == total && e.highPri == highPri
      ensures JustEnough(k, old(order), old(usage), total, capacity)
      ensures TurnsAway(old(usage) - Charges(old(order)[..k]), total, wantHandle) ==>
                && handle == null && s == (if wantHandle then Incomplete else Ok)
                && Rejected(k, old(order), old(live), old(freed), old(table.contents), e, wantHandle, order, live, freed, table.contents)
                && PinnedPart(old(table.contents), old(m), table.contents) && (!wantHandle ==> !e.inCache)
      ensures !TurnsAway(old(usage) - Charges(old(order)[..k]), total, wantHandle) ==>
                && s == (if id in Unfiled(old(table.contents), old(order)[..k]) then OkOverwritten else Ok)
                && Accepted(k, old(m), old(order), old(live), old(freed), old(table.contents), e, order1, live, freed, table.contents)
                && if wantHandle then handle == e && e.refs == 1 && order == order1
                   else
                     && handle == null && e.refs == 0 && low1 <= |order1|
                     && Entering(order1, low1, e, highPriPoolRatio > 0.0 && highPri, highPriPoolCapacity, order, low)
      ensures strictCapacityLimit && old(usage) <= capacity ==> usage <= capacity
      ensures (highPriPoolUsage <= old(highPriPoolUsage) || highPriPoolUsage as real <= highPriPoolCapacity)
    {
      hide Pooled, States, Balanced, Charges, Weight, Unique, OthersKept, Without, PoolCapacity,
        LRUCacheShard.Mirrored, LRUHandleTable.Valid, SameRefs, Loser, Displaced, Entering, StillThere, Unfiled,
        Evicted, Accepted, PinnedPart, Rejected, JustEnough, LRUCacheShard.Sound;
      var e1 := new LRUHandle(id, total, highPri);
      e, handle, order1, low1 := e1, null, order, low;
      assert States(lru, old(m), old(order), old(live), old(table.contents)) by {
        Parts();
      }
      k := EvictFromLRU(total);
      EvictedFacts(k, old(order), old(live), old(freed), old(usage), old(table.contents),
                   order, live, freed, usage, table.contents, total, capacity, e, m);
      if usage + total > capacity && (strictCapacityLimit || !wantHandle) {
        SameRefsEvicted(old(m), m);
        RejectedKeepsPinned(lru, old(m), old(order), old(live), old(table.contents), k, old(usage), total, capacity);
        if !wantHandle {
          Refuse(e1);
          s := Ok;
        } else {
          s := Incomplete;
        }
      } else {
        Parts();
        order1 := Displaced(table.contents, m, order, id);
        IsAccepted(k, lru, old(m), old(order), old(live), old(freed), old(usage), old(table.contents), e,
                   m, order, live, freed, usage, table.contents);
        ghost var m1 := m;
        var overwritten;
        overwritten, low1 := Accept(e1, wantHandle);
        SameRefsEvict(old(m), m1, m, e);
        s := if overwritten then OkOverwritten else Ok;
        if wantHandle {
          handle := e1;
        }
      }
    }
  }

  lemma SameRefsEvicted(m: Heap, m': Heap)
    requires StillThere(m, m')
    ensures SameRefs(m, m')
  {
  }

  lemma PutBack(contents: Contents, e: LRUHandle)
    ensures (contents - {e.id})[e.id := e] == contents[e.id := e]
  {
  }

  lemma SameRefsItself(m: Heap)
    ensures SameRefs(m, m)
  {
  }

  lemma AllEvicted(k: nat, order: Order, live: set<LRUHandle>, freed: set<LRUHandle>, usage: nat, contents: Contents,
                   order': Order, live': set<LRUHandle>, freed': set<LRUHandle>, usage': nat, contents': Contents)
    requires Evicted(k, order, live, freed, usage, contents, order', live', freed', usage', contents') && k == |order|
    ensures live' == live - Members(order) && freed' == freed + Members(order) && contents' == Unfiled(contents, order)
    ensures usage' <= usage
  {
    assert order[..k] == order;
  }

  function Max(a: nat, b: nat): nat {
    if a > b then a else b
  }

  lemma UniqueAt(order: Order, i: nat, k: nat)
    requires Unique(order) && i < |order| && k < |order| && order[i] == order[k]
    ensures i == k
  {
  }

  lemma ListingNothing(order: Order, e: LRUHandle)
    ensures Listing(order, order, e, false)
  {
  }

  lemma WithoutNothing(e: LRUHandle)
    ensures Without([], e) == []
  {
  }

  lemma SameStatesItself(m: Heap)
    ensures SameStates(m, m)
  {
  }

  lemma PoolCharge(d: LRUHandle, m: Heap, order: Order, low: nat, lowPri: LRUHandle, poolUsage: nat)
    requires Pooled(d, m, order, low, lowPri, poolUsage)
    ensures low <= |order| && poolUsage == Charges(order[low..])
  {
  }
}
