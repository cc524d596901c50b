/** The circular list of the LRU cache, as a value: the pointers and flags of the
    handles, and what linking and unlinking does to them. */
module LruList {
  import opened LruTable

  /** What an LRUHandle holds besides its key, charge and next_hash. */
  datatype Node = Node(next: LRUHandle?, prev: LRUHandle?, refs: nat, inCache: bool, pool: bool, hit: bool)

  type Heap = map<LRUHandle, Node>
  type Order = seq<LRUHandle>  // from the oldest to the newest

  /** Position i of the ring: the dummy head d, the list, and d again. */
  function At(d: LRUHandle, order: Order, i: nat): LRUHandle {
    if 0 < i <= |order| then order[i - 1] else d
  }

  /** d and the handles of `order` are linked in a ring, both ways; all other
      handles are unlinked. */
  ghost predicate Ring(d: LRUHandle, order: Order, m: Heap) {
    && d in m && d !in order
    && (forall i :: 0 <= i < |order| ==> order[i] in m)
    && (forall i, j :: 0 <= i < j < |order| ==> order[i] != order[j])
    && (forall i :: 0 <= i <= |order| ==> m[At(d, order, i)].next == At(d, order, i + 1))
    && (forall i :: 0 <= i <= |order| ==> m[At(d, order, i + 1)].prev == At(d, order, i))
    && (forall x :: x in m && x != d && x !in order ==> m[x].next == null && m[x].prev == null)
  }

  /** m' differs from m at most in pointers. */
  ghost predicate SameFlags(m: Heap, m': Heap) {
    && m'.Keys == m.Keys
    && forall x :: x in m ==> m'[x] == m[x].(next := m'[x].next, prev := m'[x].prev)
  }

  function InsertedAt(order: Order, k: nat, e: LRUHandle): Order
    requires k <= |order|
  {
    order[..k] + [e] + order[k..]
  }

  function RemovedAt(order: Order, k: nat): Order
    requires k < |order|
  {
    order[..k] + order[k + 1..]
  }

  function WithNext(m: Heap, x: LRUHandle, v: LRUHandle?): (m': Heap)
    requires x in m
    ensures m'.Keys == m.Keys
  {
    m[x := m[x].(next := v)]
  }

  function WithPrev(m: Heap, x: LRUHandle, v: LRUHandle?): (m': Heap)
    requires x in m
    ensures m'.Keys == m.Keys
  {
    m[x := m[x].(prev := v)]
  }

  /** The pointers after e has been linked between a and b. */
  function Linked(m: Heap, a: LRUHandle, b: LRUHandle, e: LRUHandle): Heap
    requires a in m && b in m && e in m
  {
    WithPrev(WithNext(WithPrev(WithNext(m, e, b), e, a), a, e), b, e)
  }

  /** The pointers after e, between a and b, has been taken out. */
  function Unlinked(m: Heap, a: LRUHandle, b: LRUHandle, e: LRUHandle): Heap
    requires a in m && b in m && e in m
  {
    WithNext(WithPrev(WithNext(WithPrev(m, b, a), a, b), e, null), e, null)
  }

  lemma AtInserted(d: LRUHandle, order: Order, k: nat, e: LRUHandle, i: nat)
    requires k <= |order| && i <= |order| + 2
    ensures At(d, InsertedAt(order, k, e), i) ==
            if i <= k then At(d, order, i) else if i == k + 1 then e else At(d, order, i - 1)
  {
  }

  lemma AtRemoved(d: LRUHandle, order: Order, k: nat, i: nat)
    requires k < |order| && i <= |order|
    ensures At(d, RemovedAt(order, k), i) == if i <= k then At(d, order, i) else At(d, order, i + 1)
  {
  }

  lemma LinkedRest(m: Heap, a: LRUHandle, b: LRUHandle, e: LRUHandle)
    requires a in m && b in m && e in m
    ensures SameFlags(m, Linked(m, a, b, e))
    ensures forall x :: x in m && x != a && x != b && x != e ==> Linked(m, a, b, e)[x] == m[x]
  {
    hide WithNext, WithPrev, SameFlags;
    var m1 := WithNext(m, e, b);
    var m2 := WithPrev(m1, e, a);
    var m3 := WithNext(m2, a, e);
    PointerRest(m, e, b);
    PointerRest(m1, e, a);
    PointerRest(m2, a, e);
    PointerRest(m3, b, e);
    SameFlagsTwice(m, m1, m2);
    SameFlagsTwice(m, m2, m3);
    SameFlagsTwice(m, m3, Linked(m, a, b, e));
  }

  lemma PointerRest(m: Heap, x: LRUHandle, v: LRUHandle?)
    requires x in m
    ensures SameFlags(m, WithNext(m, x, v)) && SameFlags(m, WithPrev(m, x, v))
    ensures forall y :: y in m && y != x ==> WithNext(m, x, v)[y] == m[y] == WithPrev(m, x, v)[y]
    ensures WithNext(m, x, v)[x].next == v && WithNext(m, x, v)[x].prev == m[x].prev
    ensures WithPrev(m, x, v)[x].prev == v && WithPrev(m, x, v)[x].next == m[x].next
  {
  }

  lemma SameFlagsTwice(m: Heap, m': Heap, m'': Heap)
    requires SameFlags(m, m') && SameFlags(m', m'')
    ensures SameFlags(m, m'')
  {
  }

  lemma UnlinkedRest(m: Heap, a: LRUHandle, b: LRUHandle, e: LRUHandle)
    requires a in m && b in m && e in m
    ensures SameFlags(m, Unlinked(m, a, b, e))
    ensures forall x :: x in m && x != a && x != b && x != e ==> Unlinked(m, a, b, e)[x] == m[x]
    ensures Unlinked(m, a, b, e)[e].next == null == Unlinked(m, a, b, e)[e].prev
  {
    hide WithNext, WithPrev, SameFlags;
    var m1 := WithPrev(m, b, a);
    var m2 := WithNext(m1, a, b);
    var m3 := WithPrev(m2, e, null);
    PointerRest(m, b, a);
    PointerRest(m1, a, b);
    PointerRest(m2, e, null);
    PointerRest(m3, e, null);
    SameFlagsTwice(m, m1, m2);
    SameFlagsTwice(m, m2, m3);
    SameFlagsTwice(m, m3, Unlinked(m, a, b, e));
  }

  lemma InsertRing(d: LRUHandle, order: Order, m: Heap, k: nat, e: LRUHandle)
    requires Ring(d, order, m) && k <= |order| && e in m && e != d && e !in order
    ensures At(d, order, k) in m && At(d, order, k + 1) in m
    ensures Ring(d, InsertedAt(order, k, e), Linked(m, At(d, order, k), At(d, order, k + 1), e))
    ensures SameFlags(m, Linked(m, At(d, order, k), At(d, order, k + 1), e))
  {
    hide Linked;
    var order', a, b := InsertedAt(order, k, e), At(d, order, k), At(d, order, k + 1);
    LinkedRest(m, a, b, e);
    var m' := Linked(m, a, b, e);
    forall i | 0 <= i <= |order'|
      ensures m'[At(d, order', i)].next == At(d, order', i + 1)
      ensures m'[At(d, order', i + 1)].prev == At(d, order', i)
    {
      InsertLink(d, order, m, k, e, i);
    }
  }

  lemma InsertLink(d: LRUHandle, order: Order, m: Heap, k: nat, e: LRUHandle, i: nat)
    requires Ring(d, order, m) && k <= |order| && e in m && e != d && e !in order && i <= |order| + 1
    requires At(d, order, k) in m && At(d, order, k + 1) in m
    ensures var order', m' := InsertedAt(order, k, e), Linked(m, At(d, order, k), At(d, order, k + 1), e);
            && At(d, order', i) in m' && At(d, order', i + 1) in m'
            && m'[At(d, order', i)].next == At(d, order', i + 1)
            && m'[At(d, order', i + 1)].prev == At(d, order', i)
  {
    AtInserted(d, order, k, e, i);
    AtInserted(d, order, k, e, i + 1);
  }

  lemma RemoveRing(d: LRUHandle, order: Order, m: Heap, k: nat)
    requires Ring(d, order, m) && k < |order|
    ensures At(d, order, k) in m && At(d, order, k + 2) in m
    ensures m[order[k]].prev == At(d, order, k) && m[order[k]].next == At(d, order, k + 2)
    ensures Ring(d, RemovedAt(order, k), Unlinked(m, At(d, order, k), At(d, order, k + 2), order[k]))
    ensures SameFlags(m, Unlinked(m, At(d, order, k), At(d, order, k + 2), order[k]))
  {
    hide Unlinked;
    var order', a, e, b := RemovedAt(order, k), At(d, order, k), At(d, order, k + 1), At(d, order, k + 2);
    assert m[e].next == b && m[e].prev == a;
    UnlinkedRest(m, a, b, e);
    var m' := Unlinked(m, a, b, e);
    forall i | 0 <= i < |order'| ensures order'[i] == order[if i < k then i else i + 1] {
    }
    forall i | 0 <= i <= |order'|
      ensures m'[At(d, order', i)].next == At(d, order', i + 1)
      ensures m'[At(d, order', i + 1)].prev == At(d, order', i)
    {
      RemoveLink(d, order, m, k, i);
    }
    forall x | x in m' && x != d && x !in order' ensures m'[x].next == null && m'[x].prev == null {
      if x != e { NotRemoved(order, k, x); }
    }
  }

  lemma NotRemoved(order: Order, k: nat, x: LRUHandle)
    requires k < |order| && x != order[k]
    ensures x in RemovedAt(order, k) <==> x in order
  {
    if x in order {
      var i :| 0 <= i < |order| && order[i] == x;
      assert RemovedAt(order, k)[if i < k then i else i - 1] == x;
    }
  }

  lemma RemoveLink(d: LRUHandle, order: Order, m: Heap, k: nat, i: nat)
    requires Ring(d, order, m) && k < |order| && i < |order|
    requires At(d, order, k) in m && At(d, order, k + 2) in m
    ensures var order', m' := RemovedAt(order, k), Unlinked(m, At(d, order, k), At(d, order, k + 2), order[k]);
            && At(d, order', i) in m' && At(d, order', i + 1) in m'
            && m'[At(d, order', i)].next == At(d, order', i + 1)
            && m'[At(d, order', i + 1)].prev == At(d, order', i)
  {
    AtRemoved(d, order, k, i);
    AtRemoved(d, order, k, i + 1);
  }

  // ---- charges -------------------------------------------------------------

  function Charges(s: seq<LRUHandle>): nat {
    if s == [] then 0 else s[0].total + Charges(s[1..])
  }

  lemma {:induction false} ChargesConcat(s: seq<LRUHandle>, t: seq<LRUHandle>)
    ensures Charges(s + t) == Charges(s) + Charges(t)
  {
    if s == [] {
      assert s + t == t;
    } else {
      ChargesConcat(s[1..], t);
      assert (s + t)[1..] == s[1..] + t;
    }
  }

  lemma ChargesFirst(s: seq<LRUHandle>)
    requires s != []
    ensures Charges(s) == s[0].total + Charges(s[1..])
  {
  }

  lemma ChargesOne(e: LRUHandle)
    ensures Charges([e]) == e.total
  {
  }

  lemma ChargesAppended(order: Order, e: LRUHandle)
    ensures Charges(order + [e]) == Charges(order) + e.total
  {
    hide Charges;
    ChargesConcat(order, [e]);
    ChargesOne(e);
  }

  lemma ChargesInserted(order: Order, k: nat, e: LRUHandle)
    requires k <= |order|
    ensures Charges(InsertedAt(order, k, e)) == Charges(order) + e.total
  {
    hide Charges;
    ChargesConcat(order[..k] + [e], order[k..]);
    ChargesAppended(order[..k], e);
    ChargesConcat(order[..k], order[k..]);
    assert order[..k] + order[k..] == order;
  }

  lemma ChargesRemoved(order: Order, k: nat)
    requires k < |order|
    ensures Charges(order) == Charges(RemovedAt(order, k)) + order[k].total
  {
    hide Charges;
    ChargesFirst(order[k..]);
    assert order[k..][1..] == order[k + 1..];
    ChargesConcat(order[..k], order[k + 1..]);
    ChargesConcat(order[..k], order[k..]);
    assert order[..k] + order[k..] == order;
  }

  /** Total charge of a set of handles. */
  ghost function Weight(s: set<LRUHandle>): nat
    decreases |s|
  {
    if s == {} then 0
    else
      var x :| x in s;
      x.total + Weight(s - {x})
  }

  lemma {:induction false} WeightMinus(s: set<LRUHandle>, h: LRUHandle)
    requires h in s
    ensures Weight(s) == h.total + Weight(s - {h})
    decreases |s|
  {
    var x :| x in s && Weight(s) == x.total + Weight(s - {x});
    if x != h {
      WeightMinus(s - {x}, h);
      WeightMinus(s - {h}, x);
      assert s - {x} - {h} == s - {h} - {x};
    }
  }

  lemma WeightPlus(s: set<LRUHandle>, h: LRUHandle)
    requires h !in s
    ensures Weight(s + {h}) == Weight(s) + h.total
  {
    WeightMinus(s + {h}, h);
    assert s + {h} - {h} == s;
  }

  /** The charge of a set splits into that of a list within it and the rest. */
  lemma {:induction false} WeightSplits(order: Order, s: set<LRUHandle>)
    requires forall i :: 0 <= i < |order| ==> order[i] in s
    requires forall i, j :: 0 <= i < j < |order| ==> order[i] != order[j]
    ensures Weight(s) == Charges(order) + Weight(s - set h | h in order)
  {
    if order == [] {
      assert s - (set h | h in order) == s;
    } else {
      WeightMinus(s, order[0]);
      WeightSplits(order[1..], s - {order[0]});
      assert s - (set h | h in order) == s - {order[0]} - set h | h in order[1..];
    }
  }

  lemma {:induction false} WeightUnion(a: set<LRUHandle>, b: set<LRUHandle>)
    requires a !! b
    ensures Weight(a + b) == Weight(a) + Weight(b)
    decreases |b|
  {
    if b == {} {
      assert a + b == a;
    } else {
      var x :| x in b;
      WeightMinus(b, x);
      WeightMinus(a + b, x);
      WeightUnion(a, b - {x});
      assert a + b - {x} == a + (b - {x});
    }
  }
}
