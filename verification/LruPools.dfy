/** The state of an LRU cache shard as a value: the list with its two pools, and
    which handles are listed, filed, pinned and alive. */
module LruPools {
  import opened LruTable
  import opened LruList

  // ---- the list as a value ---------------------------------------------------

  /** The list in its two pools: the first `low` handles are the low-priority
      pool, lowPri is the newest of them (or the dummy), and poolUsage is the
      charge of the others. */
  ghost predicate Pooled(d: LRUHandle, m: Heap, order: Order, low: nat, lowPri: LRUHandle, poolUsage: nat) {
    && Ring(d, order, m)
    && low <= |order|
    && (forall i :: 0 <= i < |order| ==> (m[order[i]].pool <==> low <= i))
    && lowPri == At(d, order, low)
    && poolUsage == Charges(order[low..])
  }

  function LowAfter(low: nat, k: nat): nat {
    if k < low then low - 1 else low
  }

  function Spent(poolUsage: nat, n: Node, total: nat): nat {
    if n.pool && total <= poolUsage then poolUsage - total else poolUsage
  }

  lemma RemovePooled(d: LRUHandle, m: Heap, order: Order, low: nat, lowPri: LRUHandle, poolUsage: nat, k: nat)
    requires Pooled(d, m, order, low, lowPri, poolUsage) && k < |order|
    ensures var e := order[k];
            && e in m && At(d, order, k) in m && At(d, order, k + 2) in m
            && m[e].prev == At(d, order, k) && m[e].next == At(d, order, k + 2)
            && (m[e].pool ==> poolUsage >= e.total)
            && Pooled(d, Unlinked(m, At(d, order, k), At(d, order, k + 2), e), RemovedAt(order, k), LowAfter(low, k),
                      if lowPri == e then At(d, order, k) else lowPri, Spent(poolUsage, m[e], e.total))
            && SameFlags(m, Unlinked(m, At(d, order, k), At(d, order, k + 2), e))
  {
    RemoveRing(d, order, m, k);
    RemovedCharge(order, low, k);
    RemovedPointer(d, order, m, low, k);
    RemovedIndices(order, low, k);
  }

  /** The charge of the high-priority pool without the handle at k. */
  lemma RemovedCharge(order: Order, low: nat, k: nat)
    requires low <= |order| && k < |order|
    ensures LowAfter(low, k) <= |RemovedAt(order, k)|
    ensures Charges(order[low..]) ==
            Charges(RemovedAt(order, k)[LowAfter(low, k)..]) + (if k < low then 0 else order[k].total)
  {
    if k < low {
      RemovedTail(order, low, k);
    } else {
      RemovedInTail(order, low, k);
      ChargesRemoved(order[low..], k - low);
    }
  }

  lemma RemovedTail(order: Order, low: nat, k: nat)
    requires k < low <= |order|
    ensures |RemovedAt(order, k)| == |order| - 1 && RemovedAt(order, k)[low - 1..] == order[low..]
  {
  }

  lemma RemovedInTail(order: Order, low: nat, k: nat)
    requires low <= k < |order|
    ensures |RemovedAt(order, k)| == |order| - 1 && RemovedAt(order, k)[low..] == RemovedAt(order[low..], k - low)
  {
  }

  /** The low-priority pointer moves back only if it stood on the handle at k. */
  lemma RemovedPointer(d: LRUHandle, order: Order, m: Heap, low: nat, k: nat)
    requires Ring(d, order, m) && low <= |order| && k < |order|
    ensures At(d, RemovedAt(order, k), LowAfter(low, k)) ==
            if At(d, order, low) == order[k] then At(d, order, k) else At(d, order, low)
  {
    AtRemoved(d, order, k, LowAfter(low, k));
    assert At(d, order, k + 1) == order[k];
    assert low != k + 1 ==> At(d, order, low) != At(d, order, k + 1);
  }

  /** The other handles stay on their side of the split. */
  lemma RemovedIndices(order: Order, low: nat, k: nat)
    requires low <= |order| && k < |order|
    ensures |RemovedAt(order, k)| == |order| - 1
    ensures forall i :: 0 <= i < |order| - 1 ==>
              RemovedAt(order, k)[i] == order[Skip(i, k)] && (LowAfter(low, k) <= i <==> low <= Skip(i, k))
  {
  }

  /** Handles outside the list may come, go and change; those in it may change
      anything but their pointers and their pool. */
  lemma FramePooled(d: LRUHandle, m: Heap, order: Order, low: nat, lowPri: LRUHandle, poolUsage: nat, m': Heap)
    requires Pooled(d, m, order, low, lowPri, poolUsage)
    requires d in m' && forall x :: x in order ==> x in m'
    requires forall x :: x in m && x in m' ==> SameLinks(m[x], m'[x])
    requires forall x :: x in m' && x !in m ==> m'[x].next == null && m'[x].prev == null
    ensures Pooled(d, m', order, low, lowPri, poolUsage)
  {
    assert forall i :: 0 <= i <= |order| + 1 ==> At(d, order, i) in m && At(d, order, i) in m';
  }

  predicate SameLinks(n: Node, n': Node) {
    n.next == n'.next && n.prev == n'.prev && n.pool == n'.pool
  }

  function WithPool(m: Heap, x: LRUHandle, v: bool): (m': Heap)
    requires x in m
    ensures m'.Keys == m.Keys
  {
    m[x := m[x].(pool := v)]
  }

  /** e, linked between a and b and put into a pool. */
  function Entered(m: Heap, a: LRUHandle, b: LRUHandle, e: LRUHandle, pool: bool): Heap
    requires a in m && b in m && e in m
  {
    WithPool(Linked(m, a, b, e), e, pool)
  }

  lemma WithPoolRest(d: LRUHandle, order: Order, m: Heap, x: LRUHandle, v: bool)
    requires x in m && Ring(d, order, m)
    ensures Ring(d, order, WithPool(m, x, v))
    ensures WithPool(m, x, v)[x].pool == v
    ensures forall y :: y in m && y != x ==> WithPool(m, x, v)[y] == m[y]
    ensures SameStates(m, WithPool(m, x, v))
  {
    var m' := WithPool(m, x, v);
    assert forall i :: 0 <= i <= |order| + 1 ==> At(d, order, i) in m;
    assert forall y :: y in m ==> m'[y].next == m[y].next && m'[y].prev == m[y].prev;
  }

  /** Entering at position k leaves the pools of the others alone. */
  lemma EnterAt(d: LRUHandle, m: Heap, order: Order, k: nat, e: LRUHandle, pool: bool)
    requires Ring(d, order, m) && k <= |order| && e in m && e != d && e !in order
    ensures var a, b, order' := At(d, order, k), At(d, order, k + 1), InsertedAt(order, k, e);
            && a in m && b in m && m[a].next == b && m[b].prev == a
            && Ring(d, order', Entered(m, a, b, e, pool))
            && (forall i :: 0 <= i < |order| ==> order[i] in m)
            && (forall i :: 0 <= i < |order'| ==> order'[i] in Entered(m, a, b, e, pool))
            && (forall i :: 0 <= i < k ==> Entered(m, a, b, e, pool)[order'[i]].pool == m[order[i]].pool)
            && (forall i :: k < i < |order'| ==> Entered(m, a, b, e, pool)[order'[i]].pool == m[order[i - 1]].pool)
            && Entered(m, a, b, e, pool)[order'[k]].pool == pool
            && SameStates(m, Entered(m, a, b, e, pool))
  {
    hide Ring, Linked, WithPool, SameFlags, SameStates;
    var a, b, order' := At(d, order, k), At(d, order, k + 1), InsertedAt(order, k, e);
    InsertRing(d, order, m, k, e);
    RingLink(d, order, m, k);
    var m1 := Linked(m, a, b, e);
    FlagsAreStates(m, m1);
    WithPoolRest(d, order', m1, e, pool);
    EnteredFlags(order, m, m1, WithPool(m1, e, pool), k, e);
    SameStatesTwice(m, m1, WithPool(m1, e, pool));
  }

  lemma RingLink(d: LRUHandle, order: Order, m: Heap, k: nat)
    requires Ring(d, order, m) && k <= |order|
    ensures At(d, order, k) in m && At(d, order, k + 1) in m
    ensures m[At(d, order, k)].next == At(d, order, k + 1) && m[At(d, order, k + 1)].prev == At(d, order, k)
    ensures forall i :: 0 <= i < |order| ==> order[i] in m
  {
  }

  lemma FlagsAreStates(m: Heap, m': Heap)
    requires SameFlags(m, m')
    ensures SameStates(m, m') && m'.Keys == m.Keys
  {
  }

  /** Pools after e has entered at position k: m1 has new pointers, m2 a new pool for e. */
  lemma EnteredFlags(order: Order, m: Heap, m1: Heap, m2: Heap, k: nat, e: LRUHandle)
    requires SameFlags(m, m1) && m2.Keys == m1.Keys && k <= |order| && e in m && e !in order
    requires forall i :: 0 <= i < |order| ==> order[i] in m
    requires forall y :: y in m1 && y != e ==> m2[y] == m1[y]
    ensures var order' := InsertedAt(order, k, e);
            && (forall i :: 0 <= i < |order'| ==> order'[i] in m2)
            && (forall i :: 0 <= i < k ==> m2[order'[i]].pool == m[order[i]].pool)
            && (forall i :: k < i < |order'| ==> m2[order'[i]].pool == m[order[i - 1]].pool)
            && order'[k] == e
  {
  }

  /** Entering at the newer end of the low-priority pool. */
  lemma EnterLow(d: LRUHandle, m: Heap, order: Order, low: nat, lowPri: LRUHandle, poolUsage: nat, e: LRUHandle)
    requires Pooled(d, m, order, low, lowPri, poolUsage) && e in m && e != d && e !in order
    ensures lowPri in m && At(d, order, low + 1) in m && m[lowPri].next == At(d, order, low + 1)
    ensures Pooled(d, Entered(m, lowPri, At(d, order, low + 1), e, false), InsertedAt(order, low, e), low + 1, e, poolUsage)
    ensures SameStates(m, Entered(m, lowPri, At(d, order, low + 1), e, false))
  {
    hide Ring, Entered, SameStates;
    EnterAt(d, m, order, low, e, false);
    assert InsertedAt(order, low, e)[low + 1..] == order[low..];
  }

  /** Entering at the newest end. */
  lemma EnterHigh(d: LRUHandle, m: Heap, order: Order, low: nat, lowPri: LRUHandle, poolUsage: nat, e: LRUHandle)
    requires Pooled(d, m, order, low, lowPri, poolUsage) && e in m && e != d && e !in order
    ensures d in m && At(d, order, |order|) in m && m[d].prev == At(d, order, |order|)
    ensures Pooled(d, Entered(m, At(d, order, |order|), d, e, true), order + [e], low, lowPri, poolUsage + e.total)
    ensures SameStates(m, Entered(m, At(d, order, |order|), d, e, true))
  {
    hide Ring, Entered, SameStates, Charges;
    EnterAt(d, m, order, |order|, e, true);
    assert InsertedAt(order, |order|, e) == order + [e];
    assert (order + [e])[low..] == order[low..] + [e];
    ChargesAppended(order[low..], e);
  }

  /** The handle after the low-priority pointer is the dummy exactly when the
      high-priority pool is empty, which it is not while it has charge. */
  lemma PoolIsEmpty(d: LRUHandle, m: Heap, order: Order, low: nat, lowPri: LRUHandle, poolUsage: nat)
    requires Pooled(d, m, order, low, lowPri, poolUsage)
    ensures low <= |order| && lowPri in m
    ensures m[lowPri].next == d <==> low == |order|
    ensures poolUsage > 0 ==> low < |order|
    ensures low == |order| ==> poolUsage == 0
  {
    assert m[At(d, order, low)].next == At(d, order, low + 1);
  }

  /** The oldest handle of the high-priority pool moves to the low-priority pool. */
  lemma OverflowPooled(d: LRUHandle, m: Heap, order: Order, low: nat, lowPri: LRUHandle, poolUsage: nat)
    requires Pooled(d, m, order, low, lowPri, poolUsage) && low < |order|
    ensures lowPri in m && m[lowPri].next == order[low] && order[low] in m && order[low] != d
    ensures order[low].total <= poolUsage
    ensures Pooled(d, WithPool(m, order[low], false), order, low + 1, order[low], poolUsage - order[low].total)
    ensures SameStates(m, WithPool(m, order[low], false))
  {
    var x := order[low];
    assert order[low..][1..] == order[low + 1..];
    assert At(d, order, low + 1) == x;
    WithPoolRest(d, order, m, x, false);
  }

  // ---- who is where ------------------------------------------------------------

  /** A handle is in one of the states that lru_cache.h lists: filed and pinned,
      filed, unpinned and so evictable, or pinned only. */
  predicate Proper(n: Node, listed: bool, filed: bool) {
    && (listed <==> n.inCache && n.refs == 0)
    && (filed <==> n.inCache)
    && (n.inCache || n.refs > 0)
  }

  predicate IsFiled(contents: Contents, h: LRUHandle) {
    h.id in contents && contents[h.id] == h
  }

  /** The handles are the dummy and the live ones; every live handle is in a
      proper state and every filed handle is alive. */
  ghost predicate States(d: LRUHandle, m: Heap, order: Order, live: set<LRUHandle>, contents: Contents) {
    && d !in live && m.Keys == live + {d}
    && (forall h :: h in live ==> Proper(m[h], h in order, IsFiled(contents, h)))
    && (forall id :: id in contents ==> contents[id] in live && contents[id].id == id)
  }

  predicate SameState(n: Node, n': Node) {
    n.refs == n'.refs && n.inCache == n'.inCache
  }

  ghost predicate Unique(order: Order) {
    forall i, j :: 0 <= i < j < |order| ==> order[i] != order[j]
  }

  /** A list without e. */
  function Without(order: Order, e: LRUHandle): Order {
    if order == [] then [] else if order[0] == e then order[1..] else [order[0]] + Without(order[1..], e)
  }

  lemma {:induction false} WithoutIsRemoved(order: Order, k: nat)
    requires k < |order| && Unique(order)
    ensures Without(order, order[k]) == RemovedAt(order, k)
  {
    if k > 0 {
      WithoutIsRemoved(order[1..], k - 1);
      assert RemovedAt(order, k) == [order[0]] + RemovedAt(order[1..], k - 1);
    }
  }

  lemma {:induction false} WithoutAbsent(order: Order, e: LRUHandle)
    requires e !in order
    ensures Without(order, e) == order
  {
    if order != [] {
      WithoutAbsent(order[1..], e);
    }
  }

  lemma {:induction false} WithoutHas(order: Order, e: LRUHandle, x: LRUHandle)
    requires Unique(order)
    ensures x in Without(order, e) <==> x in order && x != e
  {
    if order != [] {
      WithoutHas(order[1..], e, x);
    }
  }

  /** m' differs from m at most in pointers and pools. */
  ghost predicate SameStates(m: Heap, m': Heap) {
    && m'.Keys == m.Keys
    && forall x :: x in m ==> SameState(m[x], m'[x]) && m'[x].hit == m[x].hit
  }

  /** The high-priority pool gave up handles, oldest first, only until its
      charge fits. */
  ghost predicate Overflowed(order: Order, low: nat, low': nat, capacity: real) {
    && low <= low' <= |order|
    && Charges(order[low'..]) as real <= capacity
    && (low' > low ==> Charges(order[low' - 1..]) as real > capacity)
  }

  lemma RingIsApart(d: LRUHandle, m: Heap, order: Order, low: nat, lowPri: LRUHandle, poolUsage: nat)
    requires Pooled(d, m, order, low, lowPri, poolUsage)
    ensures low <= |order| && d in m && d !in order && Unique(order)
    ensures forall x :: x in order ==> x in m
  {
  }

  lemma SameStatesTwice(m: Heap, m': Heap, m'': Heap)
    requires SameStates(m, m') && SameStates(m', m'')
    ensures SameStates(m, m'')
  {
  }

  lemma StartsEmpty(d: LRUHandle, m: Heap)
    requires m.Keys == {d} && m[d].next == m[d].prev == d
    ensures Pooled(d, m, [], 0, d, 0) && States(d, m, [], {}, map[])
    ensures Charges([]) == Weight({}) == 0
  {
  }

  /** Flags other than the pool may change. */
  lemma RefitPooled(d: LRUHandle, m: Heap, order: Order, low: nat, lowPri: LRUHandle, poolUsage: nat, x: LRUHandle, n: Node)
    requires Pooled(d, m, order, low, lowPri, poolUsage) && x in m && SameLinks(m[x], n)
    ensures Pooled(d, m[x := n], order, low, lowPri, poolUsage)
  {
    hide Pooled;
    RingIsApart(d, m, order, low, lowPri, poolUsage);
    FramePooled(d, m, order, low, lowPri, poolUsage, m[x := n]);
  }

  /** The handles other than e keep their state. */
  ghost predicate OthersKept(m: Heap, m': Heap, e: LRUHandle) {
    forall x :: x in m && x in m' && x != e ==> SameState(m[x], m'[x]) && m'[x].hit == m[x].hit
  }

  lemma WithoutHasAll(order: Order, e: LRUHandle)
    requires Unique(order)
    ensures forall x :: x in Without(order, e) <==> x in order && x != e
  {
    forall x ensures x in Without(order, e) <==> x in order && x != e {
      WithoutHas(order, e, x);
    }
  }

  /** One more reference to a filed handle takes it off the list. */
  lemma PinStates(d: LRUHandle, m: Heap, order: Order, live: set<LRUHandle>, contents: Contents, m': Heap, e: LRUHandle)
    requires States(d, m, order, live, contents) && e in live && m'.Keys == m.Keys && OthersKept(m, m', e)
    requires m'[e].refs == m[e].refs + 1 && m'[e].inCache == m[e].inCache
    requires Unique(order)
    ensures States(d, m', Without(order, e), live, contents)
  {
    WithoutHasAll(order, e);
  }

  /** One reference less, and back on the list if that was the last. */
  lemma UnpinStates(d: LRUHandle, m: Heap, order: Order, live: set<LRUHandle>, contents: Contents, m': Heap, order': Order, e: LRUHandle)
    requires States(d, m, order, live, contents) && e in live && m'.Keys == m.Keys && OthersKept(m, m', e)
    requires m[e].refs == m'[e].refs + 1 && m'[e].inCache == m[e].inCache && (m'[e].inCache || m'[e].refs > 0)
    requires forall x :: x in order' <==> x in order || (x == e && m'[e].inCache && m'[e].refs == 0)
    ensures States(d, m', order', live, contents)
  {
  }

  /** The map without an entry for h. */
  function Unfile(contents: Contents, h: LRUHandle): Contents {
    if IsFiled(contents, h) then contents - {h.id} else contents
  }

  lemma UnfileRest(d: LRUHandle, m: Heap, order: Order, live: set<LRUHandle>, contents: Contents, e: LRUHandle)
    requires States(d, m, order, live, contents)
    ensures forall h :: h in live && h != e ==> (IsFiled(Unfile(contents, e), h) <==> IsFiled(contents, h))
    ensures !IsFiled(Unfile(contents, e), e)
    ensures forall id :: id in Unfile(contents, e) ==> id in contents && Unfile(contents, e)[id] == contents[id] != e
  {
  }

  /** A handle that is freed leaves the list and the table. */
  lemma FreeStates(d: LRUHandle, m: Heap, order: Order, live: set<LRUHandle>, contents: Contents, m': Heap, e: LRUHandle)
    requires States(d, m, order, live, contents) && e in live && m'.Keys == m.Keys - {e} && OthersKept(m, m', e)
    requires Unique(order)
    ensures States(d, m', Without(order, e), live - {e}, Unfile(contents, e))
  {
    hide Unfile;
    WithoutHasAll(order, e);
    UnfileRest(d, m, order, live, contents, e);
  }

  /** A pinned handle that leaves the table lives on. */
  lemma UnfileStates(d: LRUHandle, m: Heap, order: Order, live: set<LRUHandle>, contents: Contents, m': Heap, e: LRUHandle)
    requires States(d, m, order, live, contents) && e in live && m'.Keys == m.Keys && OthersKept(m, m', e)
    requires m[e].refs == m'[e].refs > 0 && !m'[e].inCache
    ensures States(d, m', order, live, Unfile(contents, e))
  {
    hide Unfile;
    UnfileRest(d, m, order, live, contents, e);
  }

  /** A new handle is filed under a key that is free. */
  lemma FileStates(d: LRUHandle, m: Heap, order: Order, live: set<LRUHandle>, contents: Contents, m': Heap, order': Order, e: LRUHandle)
    requires States(d, m, order, live, contents) && e !in m && e.id !in contents
    requires m'.Keys == m.Keys + {e} && OthersKept(m, m', e) && m'[e].inCache
    requires forall x :: x in order' <==> x in order || (x == e && m'[e].refs == 0)
    requires forall x :: x in order ==> x in m
    ensures States(d, m', order', live + {e}, contents[e.id := e])
  {
    forall h | h in live ensures IsFiled(contents[e.id := e], h) <==> IsFiled(contents, h) {
    }
  }

  lemma OthersKeptTwice(m: Heap, m': Heap, m'': Heap, e: LRUHandle)
    requires OthersKept(m, m', e) && OthersKept(m', m'', e) && m'.Keys == m.Keys
    ensures OthersKept(m, m'', e)
  {
  }

  lemma FlagsAreKept(m: Heap, m': Heap, e: LRUHandle)
    requires SameFlags(m, m') || SameStates(m, m')
    ensures m'.Keys == m.Keys && OthersKept(m, m', e)
    ensures e in m ==> SameState(m[e], m'[e]) && m'[e].hit == m[e].hit
  {
  }

  lemma LiveIsProper(d: LRUHandle, m: Heap, order: Order, live: set<LRUHandle>, contents: Contents, h: LRUHandle)
    requires States(d, m, order, live, contents) && h in live
    ensures h in m && h != d && Proper(m[h], h in order, IsFiled(contents, h))
  {
  }

  lemma FiledIsLive(d: LRUHandle, m: Heap, order: Order, live: set<LRUHandle>, contents: Contents, id: Id)
    requires States(d, m, order, live, contents) && id in contents
    ensures contents[id] in live && contents[id].id == id && IsFiled(contents, contents[id])
  {
  }

  // ---- the whole shard ----------------------------------------------------------

  /** List, table and handles agree, and the counters are exact: `usage` is the
      charge of the live handles and `lruUsage` that of the list. */
  ghost predicate Balanced(d: LRUHandle, m: Heap, order: Order, low: nat, lowPri: LRUHandle, poolUsage: nat, lruUsage: nat,
                           usage: nat, live: set<LRUHandle>, freed: set<LRUHandle>, contents: Contents) {
    && Pooled(d, m, order, low, lowPri, poolUsage)
    && States(d, m, order, live, contents)
    && lruUsage == Charges(order)
    && usage == Weight(live)
    && live !! freed && d !in freed
  }

  lemma BalancedParts(d: LRUHandle, m: Heap, order: Order, low: nat, lowPri: LRUHandle, poolUsage: nat, lruUsage: nat,
                      usage: nat, live: set<LRUHandle>, freed: set<LRUHandle>, contents: Contents)
    requires Balanced(d, m, order, low, lowPri, poolUsage, lruUsage, usage, live, freed, contents)
    ensures Pooled(d, m, order, low, lowPri, poolUsage) && States(d, m, order, live, contents) && Unique(order)
    ensures lruUsage == Charges(order) && usage == Weight(live)
    ensures m.Keys == live + {d} && d !in live
  {
  }

  lemma PinBalanced(d: LRUHandle, m: Heap, order: Order, low: nat, lowPri: LRUHandle, poolUsage: nat, lruUsage: nat,
                    usage: nat, live: set<LRUHandle>, freed: set<LRUHandle>, contents: Contents,
                    m': Heap, low': nat, lowPri': LRUHandle, poolUsage': nat, lruUsage': nat, e: LRUHandle)
    requires Balanced(d, m, order, low, lowPri, poolUsage, lruUsage, usage, live, freed, contents) && e in live
    requires Pooled(d, m', Without(order, e), low', lowPri', poolUsage') && lruUsage' == Charges(Without(order, e))
    requires m'.Keys == m.Keys && OthersKept(m, m', e) && e in m && m'[e].refs == m[e].refs + 1 && m'[e].inCache == m[e].inCache
    ensures Balanced(d, m', Without(order, e), low', lowPri', poolUsage', lruUsage', usage, live, freed, contents)
  {
    BalancedParts(d, m, order, low, lowPri, poolUsage, lruUsage, usage, live, freed, contents);
    hide Pooled, States, Charges, Weight, Without, OthersKept;
    PinStates(d, m, order, live, contents, m', e);
  }

  lemma FreeBalanced(d: LRUHandle, m: Heap, order: Order, low: nat, lowPri: LRUHandle, poolUsage: nat, lruUsage: nat,
                     usage: nat, live: set<LRUHandle>, freed: set<LRUHandle>, contents: Contents,
                     m': Heap, low': nat, lowPri': LRUHandle, poolUsage': nat, lruUsage': nat, e: LRUHandle)
    requires Balanced(d, m, order, low, lowPri, poolUsage, lruUsage, usage, live, freed, contents) && e in live
    requires Pooled(d, m', Without(order, e), low', lowPri', poolUsage') && lruUsage' == Charges(Without(order, e))
    requires m'.Keys == m.Keys && OthersKept(m, m', e)
    ensures usage >= e.total
    ensures Balanced(d, m' - {e}, Without(order, e), low', lowPri', poolUsage', lruUsage',
                     usage - e.total, live - {e}, freed + {e}, Unfile(contents, e))
    ensures OthersKept(m, m' - {e}, e)
    ensures e !in freed && e !in Without(order, e) && !IsFiled(Unfile(contents, e), e)
  {
    BalancedParts(d, m, order, low, lowPri, poolUsage, lruUsage, usage, live, freed, contents);
    hide Pooled, Charges, Weight, Without, Unfile;
    UnfileRest(d, m, order, live, contents, e);
    hide States;
    WithoutHasAll(order, e);
    RingIsApart(d, m', Without(order, e), low', lowPri', poolUsage');
    FramePooled(d, m', Without(order, e), low', lowPri', poolUsage', m' - {e});
    FreeStates(d, m, order, live, contents, m' - {e}, e);
    WeightMinus(live, e);
  }

  /** The oldest handle of the list is the one after the dummy. */
  lemma OldestIsNext(d: LRUHandle, m: Heap, order: Order, low: nat, lowPri: LRUHandle, poolUsage: nat)
    requires Pooled(d, m, order, low, lowPri, poolUsage)
    ensures d in m && (m[d].next != d <==> order != [])
    ensures order != [] ==> m[d].next == order[0] && order[0] in m && order[0] != d && Without(order, order[0]) == order[1..]
  {
    assert m[At(d, order, 0)].next == At(d, order, 1);
  }

  lemma UnfileBalanced(d: LRUHandle, m: Heap, order: Order, low: nat, lowPri: LRUHandle, poolUsage: nat, lruUsage: nat,
                       usage: nat, live: set<LRUHandle>, freed: set<LRUHandle>, contents: Contents, m': Heap, e: LRUHandle)
    requires Balanced(d, m, order, low, lowPri, poolUsage, lruUsage, usage, live, freed, contents) && e in live
    requires Pooled(d, m', order, low, lowPri, poolUsage)
    requires m'.Keys == m.Keys && OthersKept(m, m', e) && e in m && m[e].refs == m'[e].refs > 0 && !m'[e].inCache
    ensures Balanced(d, m', order, low, lowPri, poolUsage, lruUsage, usage, live, freed, Unfile(contents, e))
  {
    BalancedParts(d, m, order, low, lowPri, poolUsage, lruUsage, usage, live, freed, contents);
    hide Pooled, States, Charges, Weight, Without, OthersKept, Unfile;
    UnfileStates(d, m, order, live, contents, m', e);
  }

  lemma UnpinBalanced(d: LRUHandle, m: Heap, order: Order, low: nat, lowPri: LRUHandle, poolUsage: nat, lruUsage: nat,
                      usage: nat, live: set<LRUHandle>, freed: set<LRUHandle>, contents: Contents,
                      m': Heap, order': Order, low': nat, lowPri': LRUHandle, poolUsage': nat, lruUsage': nat, e: LRUHandle)
    requires Balanced(d, m, order, low, lowPri, poolUsage, lruUsage, usage, live, freed, contents) && e in live
    requires Pooled(d, m', order', low', lowPri', poolUsage') && lruUsage' == Charges(order')
    requires m'.Keys == m.Keys && OthersKept(m, m', e)
    requires e in m && m[e].refs == m'[e].refs + 1 && m'[e].inCache == m[e].inCache && (m'[e].inCache || m'[e].refs > 0)
    requires Listing(order, order', e, m'[e].inCache && m'[e].refs == 0)
    ensures Balanced(d, m', order', low', lowPri', poolUsage', lruUsage', usage, live, freed, contents)
  {
    BalancedParts(d, m, order, low, lowPri, poolUsage, lruUsage, usage, live, freed, contents);
    hide Pooled, Charges, Weight, OthersKept, Unique;
    UnpinStates(d, m, order, live, contents, m', order', e);
  }

  lemma FileBalanced(d: LRUHandle, m: Heap, order: Order, low: nat, lowPri: LRUHandle, poolUsage: nat, lruUsage: nat,
                     usage: nat, live: set<LRUHandle>, freed: set<LRUHandle>, contents: Contents,
                     m': Heap, order': Order, low': nat, lowPri': LRUHandle, poolUsage': nat, lruUsage': nat, e: LRUHandle)
    requires Balanced(d, m, order, low, lowPri, poolUsage, lruUsage, usage, live, freed, contents)
    requires Pooled(d, m', order', low', lowPri', poolUsage') && lruUsage' == Charges(order')
    requires e !in m && e !in freed && e.id !in contents
    requires m'.Keys == m.Keys + {e} && OthersKept(m, m', e) && m'[e].inCache
    requires Listing(order, order', e, m'[e].refs == 0)
    ensures Balanced(d, m', order', low', lowPri', poolUsage', lruUsage', usage + e.total, live + {e}, freed, contents[e.id := e])
  {
    BalancedParts(d, m, order, low, lowPri, poolUsage, lruUsage, usage, live, freed, contents);
    RingIsApart(d, m, order, low, lowPri, poolUsage);
    hide Pooled, Charges, Weight, Unique;
    FileStates(d, m, order, live, contents, m', order', e);
    WeightPlus(live, e);
  }

  /** order' holds what order holds, and e if it is listed. */
  ghost predicate Listing(order: Order, order': Order, e: LRUHandle, listed: bool) {
    && (forall x :: x in order' ==> x in order || (x == e && listed))
    && (forall x :: x in order ==> x in order')
    && (listed ==> e in order')
  }

  lemma ListingInserted(order: Order, k: nat, e: LRUHandle)
    requires k <= |order|
    ensures Listing(order, InsertedAt(order, k, e), e, true)
    ensures Listing(order, order + [e], e, true)
  {
    assert order == order[..k] + order[k..];
  }

  /** How a handle enters the list: at the newest end, pushing out the oldest of
      the high-priority pool until it fits; or at the newer end of the low-priority
      pool. */
  ghost predicate Entering(order: Order, low: nat, e: LRUHandle, high: bool, capacity: real, order': Order, low': nat) {
    if high then order' == order + [e] && Overflowed(order', low, low', capacity)
    else low <= |order| && order' == InsertedAt(order, low, e) && low' == low + 1
  }

  // ---- eviction ---------------------------------------------------------------

  function Members(s: Order): set<LRUHandle> {
    set h | h in s
  }

  function Unfiled(contents: Contents, s: Order): Contents {
    if s == [] then contents else Unfile(Unfiled(contents, s[..|s| - 1]), s[|s| - 1])
  }

  lemma MembersAppended(s: Order, e: LRUHandle)
    ensures Members(s + [e]) == Members(s) + {e}
  {
  }

  lemma UnfiledAppended(contents: Contents, s: Order, e: LRUHandle)
    ensures Unfiled(contents, s + [e]) == Unfile(Unfiled(contents, s), e)
  {
    hide Unfile;
    assert (s + [e])[..|s|] == s;
  }

  /** The k oldest handles of the list have been evicted, and nothing else has
      happened. */
  ghost predicate Evicted(k: nat, order: Order, live: set<LRUHandle>, freed: set<LRUHandle>, usage: nat, contents: Contents,
                          order': Order, live': set<LRUHandle>, freed': set<LRUHandle>, usage': nat, contents': Contents) {
    && k <= |order|
    && order' == order[k..]
    && live' == live - Members(order[..k])
    && freed' == freed + Members(order[..k])
    && usage' + Charges(order[..k]) == usage
    && contents' == Unfiled(contents, order[..k])
  }

  lemma NoneEvicted(order: Order, live: set<LRUHandle>, freed: set<LRUHandle>, usage: nat, contents: Contents)
    ensures Evicted(0, order, live, freed, usage, contents, order, live, freed, usage, contents)
  {
  }

  lemma OneMoreEvicted(k: nat, order: Order, live: set<LRUHandle>, freed: set<LRUHandle>, usage: nat, contents: Contents,
                       order': Order, live': set<LRUHandle>, freed': set<LRUHandle>, usage': nat, contents': Contents, e: LRUHandle)
    requires Evicted(k, order, live, freed, usage, contents, order', live', freed', usage', contents')
    requires order' != [] && e == order'[0] && usage' >= e.total
    ensures Evicted(k + 1, order, live, freed, usage, contents,
                    order'[1..], live' - {e}, freed' + {e}, usage' - e.total, Unfile(contents', e))
    ensures k < |order| && usage' - e.total + Charges(order[..k + 1]) == usage
  {
    hide Unfile, Unfiled, Charges, Members;
    assert order[..k + 1] == order[..k] + [e];
    ChargesAppended(order[..k], e);
    MembersAppended(order[..k], e);
    UnfiledAppended(contents, order[..k], e);
  }

  /** Eviction stopped as soon as it could: room for `charge`, or nothing left;
      one eviction less would not have done. */
  ghost predicate JustEnough(k: nat, order: Order, usage: nat, charge: nat, capacity: nat) {
    && k <= |order| && Charges(order[..k]) <= usage
    && (k < |order| ==> usage - Charges(order[..k]) + charge <= capacity)
    && (k > 0 ==> usage - Charges(order[..k - 1]) + charge > capacity)
  }

  /** The handles of m' are among those of m, in the same states. */
  ghost predicate StillThere(m: Heap, m': Heap) {
    m'.Keys <= m.Keys && forall x :: x in m' ==> SameState(m[x], m'[x]) && m'[x].hit == m[x].hit
  }

  lemma StillThereOneLess(m: Heap, m': Heap, m'': Heap, e: LRUHandle)
    requires StillThere(m, m') && m''.Keys == m'.Keys - {e} && OthersKept(m', m'', e)
    ensures StillThere(m, m'')
  {
  }

  lemma StillThereItself(m: Heap)
    ensures StillThere(m, m)
  {
  }

  /** The handles that somebody holds a reference to. */
  ghost function Pinned(m: Heap, live: set<LRUHandle>): set<LRUHandle> {
    set h | h in live && h in m && m[h].refs > 0
  }

  lemma PinnedWeight(d: LRUHandle, m: Heap, order: Order, low: nat, lowPri: LRUHandle, poolUsage: nat, lruUsage: nat,
                     usage: nat, live: set<LRUHandle>, freed: set<LRUHandle>, contents: Contents)
    requires Balanced(d, m, order, low, lowPri, poolUsage, lruUsage, usage, live, freed, contents)
    ensures usage == lruUsage + Weight(Pinned(m, live))
    ensures Members(order) == live - Pinned(m, live)
  {
    BalancedParts(d, m, order, low, lowPri, poolUsage, lruUsage, usage, live, freed, contents);
    RingIsApart(d, m, order, low, lowPri, poolUsage);
    hide Pooled, Balanced, Charges, Weight;
    forall i | 0 <= i < |order| ensures order[i] in live {
      assert order[i] in order;
    }
    WeightSplits(order, live);
    assert live - (set h | h in order) == Pinned(m, live);
  }

  /** Moving handles between the pools does not concern anything else. */
  lemma RepoolBalanced(d: LRUHandle, m: Heap, order: Order, low: nat, lowPri: LRUHandle, poolUsage: nat, lruUsage: nat,
                       usage: nat, live: set<LRUHandle>, freed: set<LRUHandle>, contents: Contents,
                       m': Heap, low': nat, lowPri': LRUHandle, poolUsage': nat)
    requires Balanced(d, m, order, low, lowPri, poolUsage, lruUsage, usage, live, freed, contents)
    requires Pooled(d, m', order, low', lowPri', poolUsage') && SameStates(m, m')
    ensures Balanced(d, m', order, low', lowPri', poolUsage', lruUsage, usage, live, freed, contents)
  {
    hide Pooled, Charges, Weight;
  }

  /** A handle that the shard did not know, not linked anywhere, may join the heap. */
  lemma AdoptPooled(d: LRUHandle, m: Heap, order: Order, low: nat, lowPri: LRUHandle, poolUsage: nat, e: LRUHandle, n: Node)
    requires Pooled(d, m, order, low, lowPri, poolUsage) && e !in m && n.next == null == n.prev
    ensures Pooled(d, m[e := n], order, low, lowPri, poolUsage) && e != d && e !in order
  {
    hide Pooled;
    RingIsApart(d, m, order, low, lowPri, poolUsage);
    FramePooled(d, m, order, low, lowPri, poolUsage, m[e := n]);
  }

  lemma AdoptKeeps(m: Heap, e: LRUHandle, n: Node, m': Heap)
    requires e !in m && m'.Keys == m.Keys + {e} && OthersKept(m[e := n], m', e)
    ensures OthersKept(m, m', e)
  {
  }

  /** The list after the entry under this key, if it is unpinned, has left. */
  function Displaced(contents: Contents, m: Heap, order: Order, id: Id): Order {
    if id in contents && contents[id] in m && m[contents[id]].refs == 0 then Without(order, contents[id]) else order
  }

  /** The handle that an insertion under this key frees, if any. */
  function Loser(contents: Contents, m: Heap, id: Id): set<LRUHandle> {
    if id in contents && contents[id] in m && m[contents[id]].refs == 0 then {contents[id]} else {}
  }

  /** No handle gained or lost a reference or a hit. */
  ghost predicate SameRefs(m: Heap, m': Heap) {
    forall x :: x in m && x in m' ==> m'[x].refs == m[x].refs && m'[x].hit == m[x].hit
  }

  lemma OthersAndOne(m: Heap, m': Heap, e: LRUHandle)
    requires OthersKept(m, m', e) && (e in m && e in m' ==> m'[e].refs == m[e].refs && m'[e].hit == m[e].hit)
    ensures SameRefs(m, m')
  {
  }

  lemma SameRefsEnter(m: Heap, m1: Heap, m': Heap, e: LRUHandle)
    requires SameRefs(m, m1) && e !in m && m'.Keys <= m1.Keys + {e} && OthersKept(m1, m', e)
    ensures SameRefs(m, m')
  {
  }

  lemma SameRefsEvict(m: Heap, m1: Heap, m': Heap, e: LRUHandle)
    requires StillThere(m, m1) && SameRefs(m1, m') && e !in m && m'.Keys <= m1.Keys + {e}
    ensures SameRefs(m, m')
  {
  }

  /** Eviction does not change who an insertion would displace. */
  lemma LoserStays(d: LRUHandle, m: Heap, m': Heap, order: Order, live: set<LRUHandle>, contents: Contents, id: Id)
    requires StillThere(m, m') && States(d, m', order, live, contents)
    ensures Loser(contents, m', id) == Loser(contents, m, id)
    ensures Displaced(contents, m', order, id) == Displaced(contents, m, order, id)
  {
  }

  datatype Status = Ok | OkOverwritten | Incomplete

  /** The k oldest handles are gone and e did not get in; if nobody wanted a
      handle to it, e itself has been handed to its deleter. */
  ghost predicate Rejected(k: nat, order: Order, live: set<LRUHandle>, freed: set<LRUHandle>, contents: Contents, e: LRUHandle, wanted: bool,
                           order': Order, live': set<LRUHandle>, freed': set<LRUHandle>, contents': Contents) {
    && k <= |order|
    && order' == order[k..]
    && live' == live - Members(order[..k])
    && freed' == freed + Members(order[..k]) + (if wanted then {} else {e})
    && contents' == Unfiled(contents, order[..k])
  }

  /** The k oldest handles are gone, and so is an unpinned one under the key of e,
      which e has taken over. The list is what is left of it, before e enters. */
  ghost predicate Accepted(k: nat, m: Heap, order: Order, live: set<LRUHandle>, freed: set<LRUHandle>, contents: Contents, e: LRUHandle,
                           order': Order, live': set<LRUHandle>, freed': set<LRUHandle>, contents': Contents) {
    && k <= |order|
    && var contents1 := Unfiled(contents, order[..k]);
    && order' == Displaced(contents1, m, order[k..], e.id)
    && live' == live - Members(order[..k]) - Loser(contents1, m, e.id) + {e}
    && freed' == freed + Members(order[..k]) + Loser(contents1, m, e.id)
    && contents' == contents1[e.id := e]
  }

  lemma IsAccepted(k: nat, d: LRUHandle, m: Heap, order: Order, live: set<LRUHandle>, freed: set<LRUHandle>, usage: nat, contents: Contents,
                   e: LRUHandle, m1: Heap, order1: Order, live1: set<LRUHandle>, freed1: set<LRUHandle>, usage1: nat, contents1: Contents)
    requires Evicted(k, order, live, freed, usage, contents, order1, live1, freed1, usage1, contents1)
    requires StillThere(m, m1) && States(d, m1, order1, live1, contents1)
    ensures Accepted(k, m, order, live, freed, contents, e, Displaced(contents1, m1, order1, e.id),
                     live1 - Loser(contents1, m1, e.id) + {e}, freed1 + Loser(contents1, m1, e.id), contents1[e.id := e])
  {
    LoserStays(d, m, m1, order1, live1, contents1, e.id);
  }

  lemma EvictedFacts(k: nat, order: Order, live: set<LRUHandle>, freed: set<LRUHandle>, usage: nat, contents: Contents,
                     order': Order, live': set<LRUHandle>, freed': set<LRUHandle>, usage': nat, contents': Contents,
                     charge: nat, capacity: nat, e: LRUHandle, m: Heap)
    requires Evicted(k, order, live, freed, usage, contents, order', live', freed', usage', contents')
    requires JustEnough(k, order, usage, charge, capacity)
    ensures k <= |order| && usage' == usage - Charges(order[..k]) && contents' == Unfiled(contents, order[..k])
    ensures e !in freed && e !in order ==> e !in freed'
    ensures usage' + charge > capacity ==> order' == [] == Displaced(contents', m, order', e.id)
    ensures Rejected(k, order, live, freed, contents, e, true, order', live', freed', contents')
    ensures Rejected(k, order, live, freed, contents, e, false, order', live', freed' + {e}, contents')
  {
    hide Charges, Unfiled;
  }

  /** Eviction has exactly one place to stop. */
  lemma JustEnoughIsUnique(k: nat, k': nat, order: Order, usage: nat, charge: nat, capacity: nat)
    requires JustEnough(k, order, usage, charge, capacity) && JustEnough(k', order, usage, charge, capacity)
    ensures k == k'
  {
    if k < k' {
      ChargesGrow(order, k, k' - 1);
    } else if k' < k {
      ChargesGrow(order, k', k - 1);
    }
  }

  lemma ChargesGrow(order: Order, k: nat, k': nat)
    requires k <= k' <= |order|
    ensures Charges(order[..k]) <= Charges(order[..k'])
  {
    ChargesConcat(order[..k], order[k..k']);
    assert order[..k] + order[k..k'] == order[..k'];
  }

  lemma {:induction false} UnfiledHas(contents: Contents, s: Order, id: Id)
    requires forall x :: x in contents ==> contents[x].id == x
    ensures id in Unfiled(contents, s) <==> id in contents && contents[id] !in s
    ensures id in Unfiled(contents, s) ==> Unfiled(contents, s)[id] == contents[id]
  {
    if s != [] {
      var last := |s| - 1;
      UnfiledHas(contents, s[..last], id);
      UnfiledHas(contents, s[..last], s[last].id);
      assert s == s[..last] + [s[last]];
    }
  }

  /** Somebody holds a reference to the handle filed under this key. */
  predicate PinnedUnder(contents: Contents, m: Heap, id: Id) {
    id in contents && contents[id] in m && m[contents[id]].refs > 0
  }

  /** contents' is what contents holds of pinned entries. */
  ghost predicate PinnedPart(contents: Contents, m: Heap, contents': Contents) {
    && (forall id :: id in contents' <==> PinnedUnder(contents, m, id))
    && (forall id :: id in contents' ==> id in contents && contents'[id] == contents[id])
  }

  /** An insertion that is turned away has first evicted everything unpinned: of the
      table exactly the pinned entries are left. */
  lemma RejectedKeepsPinned(d: LRUHandle, m: Heap, order: Order, live: set<LRUHandle>, contents: Contents,
                            k: nat, usage: nat, total: nat, capacity: nat)
    requires States(d, m, order, live, contents) && JustEnough(k, order, usage, total, capacity)
    requires usage - Charges(order[..k]) + total > capacity
    ensures PinnedPart(contents, m, Unfiled(contents, order[..k]))
  {
    assert order[..k] == order;
    forall id
      ensures id in Unfiled(contents, order) <==> PinnedUnder(contents, m, id)
      ensures id in Unfiled(contents, order) ==> id in contents && Unfiled(contents, order)[id] == contents[id]
    {
      UnfiledHas(contents, order, id);
      if id in contents {
        LiveIsProper(d, m, order, live, contents, contents[id]);
      }
    }
  }
}
