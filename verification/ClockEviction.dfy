/** The flags word of a CLOCK handle, and the eviction scan run to its end while
    no other thread touches the shard (cache/clock_cache.cc). */
module ClockEviction {
  import opened ClockCache
  import opened ClockProof

  // ---- the flags word ------------------------------------------------------

  const IN_CACHE_BIT: int := 1
  const USAGE_BIT: int := 2
  const ONE_REF: int := 4
  const MAX_REFS: int := 0x3FFF_FFFF

  /** Lowest bit in-cache, second bit usage, the rest of the word a count. */
  function Word(x: Handle): int {
    (if x.inCache then IN_CACHE_BIT else 0) + (if x.usage then USAGE_BIT else 0) + x.refs * ONE_REF
  }

  predicate InCache(w: int) {
    w % 2 == 1
  }

  predicate HasUsage(w: int) {
    w / 2 % 2 == 1
  }

  function CountRefs(w: int): int {
    w / 4
  }

  /** The parts of the flags read back from the word, which fits 32 bits as long
      as the count fits thirty. Every atomic operation changes one part: adding
      and subtracting one reference, setting and clearing the usage bit, clearing
      the in-cache bit. The word that TryEvict compares with is that of a handle
      in cache, unused and unreferenced. */
  lemma WordReadsBack(x: Handle)
    requires 0 <= x.refs <= MAX_REFS
    ensures var w := Word(x);
            && 0 <= w < 0x1_0000_0000
            && InCache(w) == x.inCache && HasUsage(w) == x.usage && CountRefs(w) == x.refs
            && w + ONE_REF == Word(x.(refs := x.refs + 1)) && w - ONE_REF == Word(x.(refs := x.refs - 1))
            && (if HasUsage(w) then w else w + USAGE_BIT) == Word(x.(usage := true))
            && (if HasUsage(w) then w - USAGE_BIT else w) == Word(x.(usage := false))
            && (if InCache(w) then w - IN_CACHE_BIT else w) == Word(x.(inCache := false))
            && (w == IN_CACHE_BIT <==> Evictable(x))
  {
    var low := (if x.inCache then 1 else 0) + if x.usage then 2 else 0;
    assert Word(x) == 4 * x.refs + low && Word(x) % 4 == low;
    assert Word(x) % 2 == low % 2 && Word(x) / 2 % 2 == low / 2;
  }

  // ---- the eviction scan ---------------------------------------------------

  /** How far index i is from head in the circular list of n handles. */
  function Distance(head: nat, i: nat, n: nat): int {
    if head <= i then i - head else i + n - head
  }

  lemma OneOn(head: nat, at: nat, n: nat)
    requires head < n && at < n
    ensures 0 <= Distance(head, at, n) < n && Distance(head, head, n) == 0
    ensures var next := if at + 1 >= n then 0 else at + 1;
            if next == head then Distance(head, at, n) == n - 1 else Distance(head, next, n) == Distance(head, at, n) + 1
  {
  }

  /** Position x on the circle of n, at most twice round. */
  function Around(x: nat, n: nat): int {
    if x < n then x else if x < 2 * n then x - n else x - 2 * n
  }

  lemma AroundIs(head: nat, at: nat, n: nat, second: bool, looks: nat)
    requires head < n && at < n && looks == Distance(head, at, n) + if second then n else 0
    ensures Around(head + looks, n) == at && Around(head + 2 * n, n) == head
  {
  }

  predicate Evictable(x: Handle) {
    x.inCache && !x.usage && x.refs == 0
  }

  /** What a look at a handle does to it. */
  predicate Looked(x: Handle, y: Handle) {
    if Evictable(x) then !y.inCache && y.refs == 0 && y.total == x.total && y.birth == x.birth
    else y == x.(usage := false)
  }

  /** What the scan may do to a handle: take its usage bit, or evict it. */
  predicate Aged(x: Handle, y: Handle) {
    || y == x.(usage := y.usage)
    || (x.inCache && x.refs == 0 && !y.inCache && y.refs == 0 && y.total == x.total && y.birth == x.birth)
  }

  /** After `looks` looks, starting at head: the handles passed once have lost their
      usage bit, and are out of cache if they were evictable; those passed twice are
      out of cache or referenced; those with a usage bit are not evicted before they
      are passed twice. */
  ghost predicate Scanned(orig: Handles, list: Handles, head: nat, looks: nat) {
    var n := |list|;
    && |orig| == n
    && (forall h :: 0 <= h < n ==> Aged(orig[h], list[h]))
    && (forall h :: 0 <= h < n && Distance(head, h, n) >= looks ==> list[h] == orig[h])
    && (forall h :: 0 <= h < n && orig[h].usage && Distance(head, h, n) >= looks - n ==> list[h].inCache == orig[h].inCache)
    && (forall h :: 0 <= h < n && Evictable(orig[h]) && Distance(head, h, n) < looks ==> !list[h].inCache)
    && (forall h :: 0 <= h < n && Distance(head, h, n) < looks && list[h].inCache ==> !list[h].usage)
    && (forall h :: 0 <= h < n && Distance(head, h, n) < looks - n && list[h].inCache ==> list[h].refs != 0)
  }

  lemma ScannedOn(orig: Handles, list: Handles, head: nat, at: nat, looks: nat, second: bool, y: Handle)
    requires Scanned(orig, list, head, looks) && head < |list| && at < |list|
    requires looks == Distance(head, at, |list|) + if second then |list| else 0
    requires Looked(list[at], y)
    ensures Scanned(orig, list[at := y], head, looks + 1)
  {
  }

  lemma ScannedMeans(orig: Handles, list: Handles, head: nat, looks: nat)
    requires Scanned(orig, list, head, looks) && head < |list| && forall h :: 0 <= h < |list| ==> list[h].refs >= 0
    ensures |orig| == |list| && forall h :: 0 <= h < |list| ==> Aged(orig[h], list[h])
    ensures looks <= |list| ==> forall h :: 0 <= h < |list| && orig[h].usage ==> list[h].inCache == orig[h].inCache
    ensures looks == 2 * |list| ==> forall h :: 0 <= h < |list| && list[h].inCache ==> list[h].refs > 0
  {
  }

  // ---- how much room the scan can make -----------------------------------------

  predicate Takable(x: Handle) {
    x.inCache && x.refs == 0
  }

  /** The scan evicts handle h in time to notice it: not if h is the last one of the
      circle and has a usage bit, since then only the very last look evicts it. */
  predicate InTime(list: Handles, head: nat, h: nat)
    requires h < |list|
  {
    Takable(list[h]) && !(list[h].usage && Distance(head, h, |list|) == |list| - 1)
  }

  /** The charge, among the first k handles, of those evicted in time. */
  function Reclaimable(list: Handles, head: nat, k: nat): nat
    requires k <= |list|
  {
    if k == 0 then 0 else Reclaimable(list, head, k - 1) + if InTime(list, head, k - 1) then list[k - 1].total else 0
  }

  /** The charge, among the first k handles, of those in cache without references. */
  function Unreferenced(list: Handles, k: nat): nat
    requires k <= |list|
  {
    if k == 0 then 0 else Unreferenced(list, k - 1) + if Takable(list[k - 1]) then list[k - 1].total else 0
  }

  /** The charge, among the first k handles, of those that have been evicted. */
  function Lost(orig: Handles, list: Handles, k: nat): nat
    requires k <= |orig| == |list|
  {
    if k == 0 then 0
    else Lost(orig, list, k - 1) + if orig[k - 1].inCache && !list[k - 1].inCache then orig[k - 1].total else 0
  }

  lemma {:induction false} LostNothing(list: Handles, k: nat)
    requires k <= |list|
    ensures Lost(list, list, k) == 0
  {
    if k > 0 {
      LostNothing(list, k - 1);
    }
  }

  lemma {:induction false} LostMore(orig: Handles, list: Handles, at: nat, y: Handle, k: nat)
    requires k <= |orig| == |list| && at < |list| && (y.inCache ==> list[at].inCache)
    ensures Lost(orig, list[at := y], k) ==
            Lost(orig, list, k) + if at < k && orig[at].inCache && list[at].inCache && !y.inCache then orig[at].total else 0
  {
    if k > 0 {
      LostMore(orig, list, at, y, k - 1);
    }
  }

  /** Before the very last look, only what is reclaimable has been evicted. */
  lemma {:induction false} LostIsReclaimable(orig: Handles, list: Handles, head: nat, looks: nat, k: nat)
    requires Scanned(orig, list, head, looks) && head < |list| && k <= |list| && looks < 2 * |list|
    ensures Lost(orig, list, k) <= Reclaimable(orig, head, k)
    ensures looks == 2 * |list| - 1 ==> Lost(orig, list, k) == Reclaimable(orig, head, k)
  {
    if k > 0 {
      LostIsReclaimable(orig, list, head, looks, k - 1);
      LostIsInTime(orig, list, head, looks, k - 1);
    }
  }

  lemma LostIsInTime(orig: Handles, list: Handles, head: nat, looks: nat, h: nat)
    requires Scanned(orig, list, head, looks) && head < |list| && h < |list| && looks < 2 * |list|
    ensures |orig| == |list|
    ensures orig[h].inCache && !list[h].inCache ==> InTime(orig, head, h)
    ensures looks == 2 * |list| - 1 && InTime(orig, head, h) ==> !list[h].inCache
  {
    assert Aged(orig[h], list[h]);
  }

  /** After the very last look everything unreferenced has been evicted. */
  lemma {:induction false} AllIsLost(orig: Handles, list: Handles, head: nat, k: nat)
    requires Scanned(orig, list, head, 2 * |list|) && head < |list| && k <= |list|
    ensures Lost(orig, list, k) == Unreferenced(orig, k)
  {
    if k > 0 {
      AllIsLost(orig, list, head, k - 1);
      assert Aged(orig[k - 1], list[k - 1]);
    }
  }

  lemma {:induction false} ReclaimableIsUsed(list: Handles, bin: Bin, head: nat, k: nat)
    requires k <= |list| && forall h :: h in bin && h < |list| ==> !list[h].inCache
    ensures Reclaimable(list, head, k) <= Sum(list, bin, k)
  {
    if k > 0 {
      ReclaimableIsUsed(list, bin, head, k - 1);
    }
  }

  /** Clearing the in-cache bit, erasing the key, and recycling the handle keep
      table and handles together. */
  lemma EvictionFits(list: Handles, bin: Bin, table: Table, h: HandleId)
    requires Fits(list, bin, table, Idle) && h < |list| && h !in bin && list[h].inCache
    ensures Fits(list[h := list[h].(inCache := false, id := CacheKey("", list[h].id.hash))], bin + {h}, table - {list[h].id}, Idle)
  {
    hide Fits;
    var pc := Evicting(None);
    FitsLock(list, bin, table, MustResize);
    FitsEvict(list, bin, table, pc, h);
    var list1 := list[h := list[h].(inCache := false)];
    FitsEraseEvicted(list1, bin, table, Evicted(h, None));
    FitsRecycle(list1, bin, table - {list[h].id}, Recycling(h, pc));
    var list2 := list1[h := list1[h].(id := CacheKey("", list[h].id.hash))];
    FitsStopEvicting(list2, bin + {h}, table - {list[h].id}, pc);
    FitsUnlock(list2, bin + {h}, table - {list[h].id});
    assert list2 == list[h := list[h].(inCache := false, id := CacheKey("", list[h].id.hash))];
  }

  lemma NotAged(list: Handles)
    ensures forall h :: 0 <= h < |list| ==> Aged(list[h], list[h])
  {
  }

  lemma NonEmpty(list: Handles, bin: Bin, usage: int)
    requires usage == Sum(list, bin, |list|) && usage != 0
    ensures |list| > 0
  {
  }

  lemma NotYetScanned(list: Handles, head: nat)
    requires head < |list|
    ensures Scanned(list, list, head, 0)
  {
  }

  class Shard {
    var list: seq<Handle>
    var head: nat
    var bin: set<HandleId>
    var table: map<CacheKey, HandleId>
    var usage: int
    var capacity: nat

    /** The shard while the mutex is free, see ExactWhenUnlocked. */
    ghost predicate Valid()
      reads this
    {
      && (head < |list| || (list == [] && head == 0))
      && Fits(list, bin, table, Idle)
      && (forall h :: h in bin ==> h < |list| && !list[h].inCache && list[h].refs == 0)
      && (forall h :: 0 <= h < |list| ==> list[h].refs >= 0)
      && usage == Sum(list, bin, |list|)
    }

    constructor (capacity: nat)
      ensures Valid() && list == [] && this.capacity == capacity
    {
      list, head, bin, table, usage := [], 0, {}, map[], 0;
      this.capacity := capacity;
    }

    /** Evict the handle if it is in cache, unused since the last look, and not
        referenced; otherwise take its usage bit away. */
    method TryEvict(h: HandleId) returns (evicted: bool)
      requires Valid() && h < |list|
      modifies this`list, this`bin, this`table, this`usage
      ensures Valid()
      ensures |list| == |old(list)| && list == old(list)[h := list[h]]
      ensures evicted == Evictable(old(list[h])) && Looked(old(list[h]), list[h])
      ensures !evicted ==> list[h] == old(list[h]).(usage := false) && usage == old(usage) && bin == old(bin) && table == old(table)
      ensures evicted ==> !list[h].inCache && list[h].refs == 0 && usage == old(usage) - old(list[h]).total
      ensures evicted ==> bin == old(bin) + {h} && table == old(table) - {old(list[h]).id}
    {
      hide Fits;
      var x := list[h];
      if x.inCache && !x.usage && x.refs == 0 {
        EvictionFits(list, bin, table, h);
        SumMinus(list, bin, h, |list|);
        list := list[h := x.(inCache := false, id := CacheKey("", x.id.hash))];
        SumSame(old(list), list, bin + {h}, |list|);
        table := table - {x.id};
        bin := bin + {h};
        usage := usage - x.total;
        evicted := true;
      } else {
        FitsUsage(list, bin, table, Idle, h, false);
        list := list[h := x.(usage := false)];
        SumSame(old(list), list, bin, |list|);
        evicted := false;
      }
    }

    /** One look of the scan that started on `orig` with this usage at the start. */
    method LookAt(at: nat, second: bool, ghost orig: Handles, ghost start: int, ghost looks: nat)
      requires Valid() && head < |list| && at < |list| && |orig| == |list|
      requires looks == Distance(head, at, |list|) + if second then |list| else 0
      requires Scanned(orig, list, head, looks) && usage == start - Lost(orig, list, |list|)
      modifies this`list, this`bin, this`table, this`usage
      ensures Valid() && |list| == |orig|
      ensures Scanned(orig, list, head, looks + 1) && usage == start - Lost(orig, list, |list|)
    {
      hide Fits, Scanned, Looked, Sum, Evictable, Lost;
      var evicted := TryEvict(at);
      ScannedOn(orig, old(list), head, at, looks, second, list[at]);
      LookTakes(orig, old(list), head, looks, at, list[at]);
    }

    /** The scan from head, at most twice round the circular list. `looks` counts
        the handles examined. */
    method Scan(charge: nat) returns (ok: bool, looks: nat, newHead: nat)
      requires Valid() && usage != 0
      modifies this`list, this`bin, this`table, this`usage
      ensures Valid() && |list| == |old(list)| && head < |list| && newHead < |list|
      ensures Scanned(old(list), list, head, looks) && looks <= 2 * |list| && newHead == Around(head + looks, |list|)
      ensures usage == old(usage) - Lost(old(list), list, |list|)
      ensures ok <==> old(usage) - Reclaimable(old(list), head, |old(list)|) + charge <= capacity
      ensures ok ==> usage + charge <= capacity
      ensures !ok ==> looks == 2 * |list|
    {
      hide Fits, Scanned, Looked, Sum, Aged, Evictable, Reclaimable, Unreferenced, Lost, Distance, Around;
      NonEmpty(list, bin, usage);
      NotYetScanned(list, head);
      ghost var n := |list|;
      LostNothing(list, n);
      OneOn(head, head, n);
      looks, newHead := 0, head;
      var second := false;
      while usage + charge > capacity
        invariant Valid() && n == |list| && head < n && newHead < n
        invariant looks == Distance(head, newHead, n) + if second then n else 0
        invariant Scanned(old(list), list, head, looks)
        invariant |old(list)| == n && usage == old(usage) - Lost(old(list), list, n)
        decreases 2 * n - looks
      {
        OneOn(head, newHead, n);
        AroundIs(head, newHead, n, second, looks);
        LostIsReclaimable(old(list), list, head, looks, n);
        LookAt(newHead, second, old(list), old(usage), looks);
        newHead := if newHead + 1 >= |list| then 0 else newHead + 1;
        looks := looks + 1;
        if newHead == head {
          if second {
            return false, looks, newHead;
          } else {
            second := true;
          }
        }
      }
      OneOn(head, newHead, n);
      AroundIs(head, newHead, n, second, looks);
      LostIsReclaimable(old(list), list, head, looks, n);
      ok := true;
    }

    method EvictFromCache(charge: nat) returns (ok: bool, looks: nat)
      requires Valid()
      modifies this`list, this`head, this`bin, this`table, this`usage
      ensures Valid()
      ensures ok <==> old(usage) - Reclaimable(old(list), old(head), |old(list)|) + charge <= capacity
      ensures ok ==> usage + charge <= capacity
      ensures !ok ==> head == old(head)
      ensures ok && old(usage) != 0 ==> |list| > 0 && head == Around(old(head) + looks, |list|)
      ensures !ok && old(usage) > 0 ==> usage == old(usage) - Unreferenced(old(list), |old(list)|)
      ensures !ok && old(usage) > 0 ==> forall h :: 0 <= h < |list| && list[h].inCache ==> list[h].refs > 0
      ensures old(usage) == 0 ==> list == old(list) && (ok <==> charge <= capacity)
      ensures looks <= 2 * |list|
      ensures |list| == |old(list)| && forall h :: 0 <= h < |list| ==> Aged(old(list)[h], list[h])
      ensures looks <= |list| ==> forall h :: 0 <= h < |list| && old(list)[h].usage ==> list[h].inCache == old(list)[h].inCache
    {
      hide Fits, Scanned, Looked, Sum, Aged, Evictable, Reclaimable, Unreferenced, Lost;
      if usage == 0 {
        ReclaimableIsUsed(list, bin, head, |list|);
        NotAged(list);
        return charge <= capacity, 0;
      }
      var newHead;
      ok, looks, newHead := Scan(charge);
      ScannedMeans(old(list), list, head, looks);
      if ok {
        head := newHead;
      } else {
        AllIsLost(old(list), list, head, |list|);
      }
    }
  }

  /** What one look does to the charge lost. */
  lemma LookTakes(orig: Handles, list: Handles, head: nat, looks: nat, at: nat, y: Handle)
    requires Scanned(orig, list, head, looks) && at < |list| && Looked(list[at], y)
    ensures |orig| == |list|
    ensures Lost(orig, list[at := y], |list|) == Lost(orig, list, |list|) + if Evictable(list[at]) then list[at].total else 0
  {
    assert Aged(orig[at], list[at]);
    LostMore(orig, list, at, y, |list|);
  }

  /** One handle in cache with its usage bit, and no room: the last look evicts it,
      but the scan reports failure. */
  method LastEvictionIsMissed(id: CacheKey) returns (shard: Shard, ok: bool)
    ensures shard.Valid() && !ok && shard.usage == 0 == shard.capacity
  {
    shard := new Shard(0);
    shard.list, shard.table, shard.usage := [Handle(id, 1, 0, true, true, 0)], map[id := 0], 1;
    assert Sum(shard.list, {}, 1) == 1;
    assert shard.Valid();
    var looks;
    ok, looks := shard.EvictFromCache(0);
  }
}
