/** The chained hash table of the LRU cache (cache/lru_cache.cc, cache/lru_cache.h). */
module LruTable {

  datatype Id = Id(key: string, hash: nat)

  class LRUHandle {
    const id: Id
    const total: nat  // CalcTotalCharge()
    const highPri: bool  // IS_HIGH_PRI
    var nextHash: LRUHandle?
    var next: LRUHandle?
    var prev: LRUHandle?
    var refs: nat
    var inCache: bool
    var inHighPriPool: bool
    var hasHit: bool

    constructor (id: Id, total: nat, highPri: bool)
      ensures this.id == id && this.total == total && this.highPri == highPri
      ensures nextHash == null && next == null && prev == null
      ensures refs == 0 && inCache && !inHighPriPool && !hasHit
    {
      this.id, this.total, this.highPri := id, total, highPri;
      nextHash, next, prev := null, null, null;
      refs, inCache, inHighPriPool, hasHit := 0, true, false, false;
    }
  }

  // ---- chains as values ----------------------------------------------------

  type Chain = seq<LRUHandle>
  type Nexts = map<LRUHandle, LRUHandle?>  // the next_hash pointers
  type Contents = map<Id, LRUHandle>

  /** The pointer that leads to position j of a chain. */
  function Link(c: Chain, j: nat): LRUHandle? {
    if j < |c| then c[j] else null
  }

  /** Bucket b of n: `head` leads into chain c, whose handles are linked in this
      order, hash into b, and have pairwise different keys. */
  ghost predicate ChainOk(head: LRUHandle?, nexts: Nexts, c: Chain, b: nat, n: nat) {
    && n > 0
    && head == Link(c, 0)
    && (forall j :: 0 <= j < |c| ==> c[j] in nexts && nexts[c[j]] == Link(c, j + 1))
    && (forall j :: 0 <= j < |c| ==> c[j].id.hash % n == b)
    && (forall j, k :: 0 <= j < k < |c| ==> c[j].id != c[k].id)
  }

  ghost predicate Chained(heads: seq<LRUHandle?>, nexts: Nexts, chains: seq<Chain>) {
    && |chains| == |heads|
    && forall b :: 0 <= b < |chains| ==> ChainOk(heads[b], nexts, chains[b], b, |chains|)
  }

  /** The chains hold exactly the handles of the map. */
  ghost predicate Maps(chains: seq<Chain>, contents: Contents) {
    && |chains| > 0
    && (forall b, j :: 0 <= b < |chains| && 0 <= j < |chains[b]| ==>
          chains[b][j].id in contents && contents[chains[b][j].id] == chains[b][j])
    && (forall id :: id in contents ==> contents[id].id == id && contents[id] in chains[id.hash % |chains|])
  }

  function Total(chains: seq<Chain>): nat {
    if chains == [] then 0 else Total(chains[..|chains| - 1]) + |chains[|chains| - 1]|
  }

  lemma TotalUpdate(chains: seq<Chain>, b: nat, c: Chain)
    requires b < |chains|
    ensures Total(chains[b := c]) == Total(chains) - |chains[b]| + |c|
  {
    var last := |chains| - 1;
    if b == last {
      assert chains[b := c][..last] == chains[..last];
    } else {
      TotalUpdate(chains[..last], b, c);
      assert chains[b := c][..last] == chains[..last][b := c];
    }
  }

  /** A chain does not notice changes at handles it does not hold. */
  lemma ChainFrame(head: LRUHandle?, nexts: Nexts, nexts': Nexts, c: Chain, b: nat, n: nat)
    requires ChainOk(head, nexts, c, b, n)
    requires forall j :: 0 <= j < |c| ==> c[j] in nexts' && nexts'[c[j]] == nexts[c[j]]
    ensures ChainOk(head, nexts', c, b, n)
  {
  }

  /** Replacing one bucket, with changes confined to handles that hash there. */
  lemma ChainedUpdate(heads: seq<LRUHandle?>, nexts: Nexts, chains: seq<Chain>, b: nat,
                      head: LRUHandle?, nexts': Nexts, c: Chain)
    requires Chained(heads, nexts, chains) && b < |chains|
    requires ChainOk(head, nexts', c, b, |chains|)
    requires forall x :: x in nexts && x.id.hash % |chains| != b ==> x in nexts' && nexts'[x] == nexts[x]
    ensures Chained(heads[b := head], nexts', chains[b := c])
  {
    hide ChainOk;
    forall i | 0 <= i < |chains| && i != b
      ensures ChainOk(heads[i], nexts', chains[i], i, |chains|)
    {
      ChainIsHere(heads[i], nexts, chains[i], i, |chains|);
      ChainFrame(heads[i], nexts, nexts', chains[i], i, |chains|);
    }
  }

  lemma ChainIsHere(head: LRUHandle?, nexts: Nexts, c: Chain, b: nat, n: nat)
    requires ChainOk(head, nexts, c, b, n)
    ensures n > 0 && head == Link(c, 0) && forall j :: 0 <= j < |c| ==> c[j] in nexts && c[j].id.hash % n == b
  {
  }

  /** The pointers after storing x into the slot that leads to position j. */
  function Slotted(nexts: Nexts, c: Chain, j: nat, x: LRUHandle?): Nexts
    requires j <= |c|
  {
    if j == 0 then nexts else nexts[c[j - 1] := x]
  }

  function SlottedHead(head: LRUHandle?, j: nat, x: LRUHandle?): LRUHandle? {
    if j == 0 then x else head
  }

  ghost predicate Absent(c: Chain, id: Id) {
    forall j :: 0 <= j < |c| ==> c[j].id != id
  }

  lemma AppendOk(head: LRUHandle?, nexts: Nexts, c: Chain, b: nat, n: nat, h: LRUHandle)
    requires ChainOk(head, nexts, c, b, n) && Absent(c, h.id) && h.id.hash % n == b
    ensures ChainOk(SlottedHead(head, |c|, h), Slotted(nexts[h := null], c, |c|, h), c + [h], b, n)
  {
  }

  lemma ReplaceOk(head: LRUHandle?, nexts: Nexts, c: Chain, b: nat, n: nat, j: nat, h: LRUHandle)
    requires ChainOk(head, nexts, c, b, n) && j < |c| && c[j].id == h.id && h !in c
    ensures ChainOk(SlottedHead(head, j, h), Slotted(nexts[h := nexts[c[j]]], c, j, h), c[j := h], b, n)
  {
  }

  lemma RemoveOk(head: LRUHandle?, nexts: Nexts, c: Chain, b: nat, n: nat, j: nat)
    requires ChainOk(head, nexts, c, b, n) && j < |c|
    ensures ChainOk(SlottedHead(head, j, nexts[c[j]]), Slotted(nexts, c, j, nexts[c[j]]), c[..j] + c[j + 1..], b, n)
  {
    hide ChainOk, Slotted;
    ChainLink(head, nexts, c, b, n, j);
    ChainIsHere(head, nexts, c, b, n);
    var c', nexts' := c[..j] + c[j + 1..], Slotted(nexts, c, j, nexts[c[j]]);
    forall k | 0 <= k < |c'|
      ensures c'[k] in nexts' && nexts'[c'[k]] == Link(c', k + 1) && c'[k].id.hash % n == b
    {
      RemoveLink(head, nexts, c, b, n, j, k);
      assert c'[k] == c[Skip(k, j)];
    }
    forall i, k | 0 <= i < k < |c'| ensures c'[i].id != c'[k].id {
      ChainIsDistinct(head, nexts, c, b, n, Skip(k, j));
      assert c'[i] == c[Skip(i, j)] && c'[k] == c[Skip(k, j)];
    }
    MakeChain(SlottedHead(head, j, nexts[c[j]]), nexts', c', b, n);
  }

  lemma MakeChain(head: LRUHandle?, nexts: Nexts, c: Chain, b: nat, n: nat)
    requires n > 0 && head == Link(c, 0)
    requires forall j :: 0 <= j < |c| ==> c[j] in nexts && nexts[c[j]] == Link(c, j + 1) && c[j].id.hash % n == b
    requires forall j, k :: 0 <= j < k < |c| ==> c[j].id != c[k].id
    ensures ChainOk(head, nexts, c, b, n)
  {
  }

  lemma RemoveLink(head: LRUHandle?, nexts: Nexts, c: Chain, b: nat, n: nat, j: nat, k: nat)
    requires ChainOk(head, nexts, c, b, n) && j < |c| && k < |c| - 1
    ensures var c', nexts' := c[..j] + c[j + 1..], Slotted(nexts, c, j, nexts[c[j]]);
            c'[k] in nexts' && nexts'[c'[k]] == Link(c', k + 1)
  {
    hide ChainOk;
    var c', i := c[..j] + c[j + 1..], Skip(k, j);
    assert c'[k] == c[i];
    assert Link(c', k + 1) == Link(c, Skip(k + 1, j));
    ChainLink(head, nexts, c, b, n, i);
    ChainLink(head, nexts, c, b, n, j);
    ChainIsDistinct(head, nexts, c, b, n, i);
    assert j > 0 && i != j - 1 ==> c[j - 1].id != c[i].id;
  }

  lemma ChainLink(head: LRUHandle?, nexts: Nexts, c: Chain, b: nat, n: nat, j: nat)
    requires ChainOk(head, nexts, c, b, n) && j < |c|
    ensures c[j] in nexts && nexts[c[j]] == Link(c, j + 1)
  {
  }

  /** Positions before and after one element of a sequence is taken out. */
  function Skip(k: nat, j: nat): nat {
    if k < j then k else k + 1
  }

  lemma PushOk(head: LRUHandle?, nexts: Nexts, c: Chain, b: nat, n: nat, h: LRUHandle)
    requires ChainOk(head, nexts, c, b, n) && Absent(c, h.id) && h.id.hash % n == b
    ensures ChainOk(h, nexts[h := head], [h] + c, b, n)
  {
  }

  lemma MapsAdd(chains: seq<Chain>, contents: Contents, b: nat, h: LRUHandle)
    requires Maps(chains, contents) && b == h.id.hash % |chains| && h.id !in contents
    ensures Maps(chains[b := chains[b] + [h]], contents[h.id := h])
  {
  }

  lemma MapsReplace(chains: seq<Chain>, contents: Contents, b: nat, j: nat, h: LRUHandle)
    requires Maps(chains, contents) && b == h.id.hash % |chains| && j < |chains[b]| && chains[b][j].id == h.id
    requires forall k :: 0 <= k < |chains[b]| && k != j ==> chains[b][k].id != h.id
    requires forall i :: 0 <= i < |chains| && i != b ==> Absent(chains[i], h.id)
    ensures Maps(chains[b := chains[b][j := h]], contents[h.id := h])
  {
    var chains', contents' := chains[b := chains[b][j := h]], contents[h.id := h];
    assert chains'[b][j] == h;
    forall id | id in contents' ensures contents'[id].id == id && contents'[id] in chains'[id.hash % |chains'|] {
      if id != h.id {
        var c := chains[id.hash % |chains|];
        var k :| 0 <= k < |c| && c[k] == contents[id];
        assert chains'[id.hash % |chains|][k] == contents[id];
      }
    }
  }

  lemma MapsRemove(chains: seq<Chain>, contents: Contents, b: nat, j: nat)
    requires Maps(chains, contents) && b < |chains| && j < |chains[b]| && chains[b][j].id.hash % |chains| == b
    requires forall k :: 0 <= k < |chains[b]| && k != j ==> chains[b][k].id != chains[b][j].id
    requires forall i :: 0 <= i < |chains| && i != b ==> Absent(chains[i], chains[b][j].id)
    ensures Maps(chains[b := chains[b][..j] + chains[b][j + 1..]], contents - {chains[b][j].id})
  {
    var gone := chains[b][j].id;
    var c' := chains[b][..j] + chains[b][j + 1..];
    assert forall k :: 0 <= k < |c'| ==> c'[k] == if k < j then chains[b][k] else chains[b][k + 1];
    var chains', contents' := chains[b := c'], contents - {gone};
    forall id | id in contents' ensures contents'[id].id == id && contents'[id] in chains'[id.hash % |chains'|] {
      var c := chains[id.hash % |chains|];
      var k :| 0 <= k < |c| && c[k] == contents[id];
      if id.hash % |chains| == b {
        assert c'[if k < j then k else k - 1] == contents[id];
      }
    }
  }

  /** No other bucket can hold this key. */
  lemma ElsewhereAbsent(heads: seq<LRUHandle?>, nexts: Nexts, chains: seq<Chain>, i: nat, id: Id)
    requires Chained(heads, nexts, chains) && i < |chains| && i != id.hash % |chains|
    ensures Absent(chains[i], id)
  {
    ChainIsHere(heads[i], nexts, chains[i], i, |chains|);
  }

  /** Pointers, chains and map describe the same table of `elems` entries. */
  ghost predicate Whole(heads: seq<LRUHandle?>, nexts: Nexts, chains: seq<Chain>, contents: Contents, elems: nat) {
    && Chained(heads, nexts, chains)
    && Maps(chains, contents)
    && nexts.Keys == contents.Values
    && elems == |contents| == Total(chains)
  }

  /** Walking a chain to an entry with this key, or to its end, answers whether
      the key is in the map. */
  lemma WalkAnswers(chains: seq<Chain>, contents: Contents, id: Id, j: nat)
    requires Maps(chains, contents)
    requires var c := chains[id.hash % |chains|];
             j <= |c| && (j < |c| ==> c[j].id == id) && forall k :: 0 <= k < j ==> c[k].id != id
    ensures var c := chains[id.hash % |chains|];
            if j < |c| then id in contents && contents[id] == c[j] else id !in contents && Absent(c, id)
  {
  }

  predicate PowerOfTwo(n: nat) {
    n == 1 || (n > 1 && n % 2 == 0 && PowerOfTwo(n / 2))
  }

  /** One is a power of two, doubling makes another one, and no other number is one. */
  lemma PowersOfTwo(n: nat)
    ensures PowerOfTwo(1) && !PowerOfTwo(0)
    ensures n > 0 ==> (PowerOfTwo(2 * n) <==> PowerOfTwo(n)) && !PowerOfTwo(2 * n + 1)
  {
  }

  // ---- the table -----------------------------------------------------------

  class LRUHandleTable {
    var list: array<LRUHandle?>  // list_, of length length_
    var elems: nat
    ghost var chains: seq<Chain>
    ghost var nexts: Nexts
    ghost var contents: Contents

    /** The chains on the heap are those of the ghost fields, and hold exactly
        the handles of the map. */
    ghost predicate Consistent()
      reads this, list, nexts.Keys`nextHash
    {
      && (forall x :: x in nexts ==> x.nextHash == nexts[x])
      && |chains| == list.Length > 0
      && Whole(list[..], nexts, chains, contents, elems)
    }

    ghost predicate Valid()
      reads this, list, nexts.Keys`nextHash
    {
      Consistent() && PowerOfTwo(list.Length) && 16 <= list.Length && elems <= list.Length
    }

    /** The slot that leads to the entry with this key and hash, or the last slot
        of its chain: in bucket b, after `before` (null at the start). */
    method FindPointer(id: Id) returns (b: nat, before: LRUHandle?, found: LRUHandle?, ghost j: nat)
      requires Consistent()
      ensures b == id.hash % |chains| && b < list.Length && j <= |chains[b]|
      ensures found == Link(chains[b], j)
      ensures before == if j == 0 then null else chains[b][j - 1]
      ensures id in contents ==> found == contents[id] && found.id == id
      ensures id !in contents ==> found == null && Absent(chains[b], id)
    {
      hide Total, Maps, ChainOk, Chained, Absent;
      b := id.hash % list.Length;
      ChainAt(list[..], nexts, chains, b);
      ChainIsHere(list[..][b], nexts, chains[b], b, |chains|);
      before, found, j := null, list[b], 0;
      while found != null && found.id != id
        invariant j <= |chains[b]|
        invariant found == Link(chains[b], j)
        invariant before == if j == 0 then null else chains[b][j - 1]
        invariant forall k :: 0 <= k < j ==> chains[b][k].id != id
        decreases |chains[b]| - j
      {
        ChainLink(list[..][b], nexts, chains[b], b, |chains|, j);
        before, found, j := found, found.nextHash, j + 1;
      }
      WalkAnswers(chains, contents, id, j);
    }

    method Lookup(id: Id) returns (h: LRUHandle?)
      requires Valid()
      ensures h == if id in contents then contents[id] else null
    {
      hide Whole;
      var b, before, found, j := FindPointer(id);
      h := found;
    }

    /** Store x into the slot that leads to position j of bucket b. */
    method SetSlot(b: nat, before: LRUHandle?, x: LRUHandle?, ghost j: nat)
      requires b < list.Length && b < |chains| && j <= |chains[b]|
      requires before == if j == 0 then null else chains[b][j - 1]
      requires before != null ==> before in nexts
      requires forall y :: y in nexts ==> y.nextHash == nexts[y]
      modifies this`nexts, list, nexts.Keys`nextHash
      ensures nexts == Slotted(old(nexts), chains[b], j, x) && nexts.Keys == old(nexts.Keys)
      ensures forall y :: y in nexts ==> y.nextHash == nexts[y]
      ensures list[..] == old(list[..])[b := SlottedHead(old(list[b]), j, x)]
    {
      if before == null {
        list[b] := x;
      } else {
        before.nextHash := x;
        nexts := nexts[before := x];
      }
    }

    /** Record that h was appended to bucket b. */
    ghost method Added(heads0: seq<LRUHandle?>, nexts0: Nexts, b: nat, h: LRUHandle)
      requires b < |chains| == |heads0| && b == h.id.hash % |chains| && h !in nexts0 && h.id !in contents && elems > 0
      requires Whole(heads0, nexts0, chains, contents, elems - 1)
      requires list[..] == heads0[b := SlottedHead(heads0[b], |chains[b]|, h)]
      requires nexts == Slotted(nexts0[h := null], chains[b], |chains[b]|, h)
      requires forall x :: x in nexts ==> x.nextHash == nexts[x]
      modifies this`chains, this`contents
      ensures Consistent() && contents == old(contents)[h.id := h]
    {
      hide Whole, Slotted, SlottedHead;
      AddChained(heads0, nexts0, chains, contents, elems - 1, b, h);
      chains := chains[b := chains[b] + [h]];
      contents := contents[h.id := h];
    }

    /** Record that h took the place of the entry at position j of bucket b. */
    ghost method Replaced(heads0: seq<LRUHandle?>, nexts0: Nexts, b: nat, h: LRUHandle, j: nat)
      requires b < |chains| == |heads0| && b == h.id.hash % |chains| && h !in nexts0
      requires j < |chains[b]| && chains[b][j].id == h.id && chains[b][j] in nexts0
      requires Whole(heads0, nexts0, chains, contents, elems)
      requires list[..] == heads0[b := SlottedHead(heads0[b], j, h)]
      requires nexts == Slotted(nexts0[h := nexts0[chains[b][j]]], chains[b], j, h)
      requires forall x :: x in nexts ==> x.nextHash == nexts[x]
      modifies this`chains, this`contents, this`nexts
      ensures Consistent() && contents == old(contents)[h.id := h]
      ensures nexts.Keys <= old(nexts.Keys)
    {
      hide Whole, Slotted, SlottedHead;
      ReplaceChained(heads0, nexts0, chains, contents, elems, b, h, j);
      ghost var found := chains[b][j];
      chains := chains[b := chains[b][j := h]];
      contents := contents[h.id := h];
      nexts := nexts - {found};
    }

    /** Insert without the check for growth. */
    method Place(h: LRUHandle) returns (displaced: LRUHandle?)
      requires Consistent() && h !in nexts
      modifies this, list, h`nextHash, nexts.Keys`nextHash
      ensures Consistent() && list == old(list)
      ensures displaced == if h.id in old(contents) then old(contents)[h.id] else null
      ensures contents == old(contents)[h.id := h]
      ensures nexts.Keys <= old(nexts.Keys) + {h}
      ensures elems == old(elems) + if displaced == null then 1 else 0
    {
      hide Whole, Slotted, SlottedHead, Absent;
      var b, before, found, j := FindPointer(h.id);
      displaced := found;
      ghost var heads0, nexts0 := list[..], nexts;
      BeforeIsNode(heads0, nexts0, chains, contents, elems, b, j);
      h.nextHash := if found == null then null else found.nextHash;
      nexts := nexts[h := h.nextHash];
      SetSlot(b, before, h, j);
      if found == null {
        elems := elems + 1;
        Added(heads0, nexts0, b, h);
      } else {
        Replaced(heads0, nexts0, b, h, j);
      }
    }

    /** Record that the entry at position j of bucket b was taken out. */
    ghost method Removed(heads0: seq<LRUHandle?>, nexts0: Nexts, b: nat, id: Id, j: nat)
      requires b < |chains| == |heads0| && b == id.hash % |chains|
      requires j < |chains[b]| && chains[b][j].id == id && chains[b][j] in nexts0
      requires Whole(heads0, nexts0, chains, contents, elems + 1)
      requires list[..] == heads0[b := SlottedHead(heads0[b], j, nexts0[chains[b][j]])]
      requires nexts == Slotted(nexts0, chains[b], j, nexts0[chains[b][j]])
      requires forall x :: x in nexts ==> x.nextHash == nexts[x]
      modifies this`chains, this`contents, this`nexts
      ensures Consistent() && contents == old(contents) - {id}
      ensures nexts.Keys <= old(nexts.Keys)
    {
      hide Whole, Slotted, SlottedHead;
      RemoveChained(heads0, nexts0, chains, contents, elems + 1, b, id, j);
      ghost var found := chains[b][j];
      chains := chains[b := chains[b][..j] + chains[b][j + 1..]];
      contents := contents - {id};
      nexts := nexts - {found};
    }

    method Remove(id: Id) returns (gone: LRUHandle?)
      requires Valid()
      modifies this, list, nexts.Keys`nextHash
      ensures Valid() && list == old(list)
      ensures gone == if id in old(contents) then old(contents)[id] else null
      ensures contents == old(contents) - {id}
    {
      hide Whole, Slotted, SlottedHead, Absent, PowerOfTwo;
      var b, before, found, j := FindPointer(id);
      gone := found;
      if found != null {
        ghost var heads0, nexts0 := list[..], nexts;
        BeforeIsNode(heads0, nexts0, chains, contents, elems, b, j);
        CountsAll(heads0, nexts0, chains, contents, elems, id);
        SetSlot(b, before, found.nextHash, j);
        elems := elems - 1;
        Removed(heads0, nexts0, b, id, j);
      } else {
        assert contents == contents - {id};
      }
    }

    /** The smallest power of two from 16 on that is at least 1.5 * elems. */
    method NewLength() returns (n: nat)
      ensures PowerOfTwo(n) && 16 <= n && elems <= n
      ensures 2 * n >= 3 * elems && (n > 16 ==> n < 3 * elems)
    {
      n := 16;
      while 2 * n < 3 * elems
        invariant PowerOfTwo(n) && 16 <= n && (n > 16 ==> n < 3 * elems)
        decreases 3 * elems - 2 * n
      {
        n := 2 * n;
      }
    }

    /** The inner loop of Resize: move the handles of chain i. */
    method MoveChain(i: nat, newList: array<LRUHandle?>, ghost chains': seq<Chain>, ghost moved: set<LRUHandle>)
      returns (count: nat, ghost chains'': seq<Chain>, ghost moved': set<LRUHandle>)
      requires i < list.Length == |chains| && 0 < newList.Length == |chains'| && newList != list
      requires forall x :: x in nexts ==> x.nextHash == nexts[x]
      requires nexts.Keys == contents.Values && Apart(chains) && Filed(contents)
      requires list[i] == Link(chains[i], 0)
      requires Halfway(nexts, chains, contents, i, 0, newList[..], chains', moved)
      modifies this`nexts, newList, nexts.Keys`nextHash
      ensures nexts.Keys == old(nexts.Keys) && forall x :: x in nexts ==> x.nextHash == nexts[x]
      ensures |chains''| == |chains'|
      ensures Halfway(nexts, chains, contents, i + 1, 0, newList[..], chains'', moved')
      ensures count == |chains[i]| && Total(chains'') == Total(chains') + count
    {
      hide Halfway, Apart, Filed, Total;
      chains'', moved' := chains', moved;
      var h := list[i];
      count := 0;
      while h != null
        invariant count <= |chains[i]| && h == Link(chains[i], count)
        invariant nexts.Keys == old(nexts.Keys) && forall x :: x in nexts ==> x.nextHash == nexts[x]
        invariant |chains''| == |chains'|
        invariant Halfway(nexts, chains, contents, i, count, newList[..], chains'', moved')
        invariant Total(chains'') == Total(chains') + count
        decreases |chains[i]| - count
      {
        StillLinked(nexts, chains, contents, i, count, newList[..], chains'', moved');
        var next := h.nextHash;
        var b := h.id.hash % newList.Length;
        MoveOne(nexts, chains, contents, i, count, newList[..], chains'', moved', h, b);
        TotalUpdate(chains'', b, [h] + chains''[b]);
        h.nextHash := newList[b];
        nexts := nexts[h := newList[b]];
        newList[b] := h;
        chains'' := chains''[b := [h] + chains''[b]];
        moved' := moved' + {h};
        h := next;
        count := count + 1;
      }
      ChainMoved(nexts, chains, contents, i, newList[..], chains'', moved');
    }

    /** Relink every handle into a longer list of chains. */
    method Resize()
      requires Consistent()
      modifies this, nexts.Keys`nextHash
      ensures Valid() && fresh(list)
      ensures contents == old(contents) && nexts.Keys == old(nexts.Keys) && elems == old(elems)
      ensures 2 * list.Length >= 3 * elems && (list.Length > 16 ==> list.Length < 3 * elems)
    {
      hide Whole, Halfway, Apart, Filed, Total, PowerOfTwo;
      var newLength := NewLength();
      var newList := new LRUHandle?[newLength](_ => null);
      var count := 0;
      ghost var chains', moved: set<LRUHandle> := seq(newLength, _ => []), {};
      StartMoving(list[..], nexts, chains, contents, elems, newLength);
      assert newList[..] == seq(newLength, _ => null);
      for i := 0 to list.Length
        invariant list == old(list) && list[..] == old(list[..]) && chains == old(chains) && contents == old(contents) && elems == old(elems)
        invariant nexts.Keys == old(nexts.Keys) && forall x :: x in nexts ==> x.nextHash == nexts[x]
        invariant |chains'| == newList.Length == newLength
        invariant Halfway(nexts, chains, contents, i, 0, newList[..], chains', moved)
        invariant count == Total(chains') == Total(chains[..i])
      {
        var n;
        n, chains', moved := MoveChain(i, newList, chains', moved);
        count := count + n;
        TotalPrefix(chains, i);
      }
      assert chains[..list.Length] == chains;
      FinishMoving(old(list[..]), old(nexts), nexts, chains, contents, elems, newList[..], chains', moved);
      assert elems == count;
      list := newList;
      chains := chains';
    }

    lemma CountsContents()
      requires Consistent()
      ensures elems == |contents|
    {
    }

    /** The map that the table stands for gains h; an entry with the same key is
        displaced. The table grows when it would have more entries than chains, to the
        least length from 16 on, doubling, with 1.5 chains an entry. */
    method Insert(h: LRUHandle) returns (displaced: LRUHandle?)
      requires Valid() && h !in nexts
      modifies this, list, h`nextHash, nexts.Keys`nextHash
      ensures Valid() && (list == old(list) || fresh(list))
      ensures displaced == if h.id in old(contents) then old(contents)[h.id] else null
      ensures contents == old(contents)[h.id := h]
      ensures list == old(list) <==> |contents| <= old(list.Length)
      ensures list != old(list) ==> 2 * list.Length >= 3 * |contents| && (list.Length > 16 ==> list.Length < 3 * |contents|)
    {
      hide Whole, PowerOfTwo;
      displaced := Place(h);
      if displaced == null && elems > list.Length {
        Resize();
      }
      CountsContents();
    }

    constructor ()
      ensures Valid() && contents == map[] && fresh(list)
    {
      list := new LRUHandle?[16](_ => null);
      elems, chains, nexts, contents := 0, seq(16, _ => []), map[], map[];
      new;
      TotalEmpty(16);
    }

    lemma NodesAreContents()
      requires Consistent()
      ensures nexts.Keys == contents.Values && Filed(contents)
    {
    }
  }

  lemma TotalPrefix(chains: seq<Chain>, i: nat)
    requires i < |chains|
    ensures Total(chains[..i + 1]) == Total(chains[..i]) + |chains[i]|
  {
    assert chains[..i + 1][..i] == chains[..i];
  }

  lemma StillLinked(nexts: Nexts, chains: seq<Chain>, contents: Contents, i: nat, j: nat,
                    heads': seq<LRUHandle?>, chains': seq<Chain>, moved: set<LRUHandle>)
    requires Halfway(nexts, chains, contents, i, j, heads', chains', moved) && i < |chains| && j < |chains[i]|
    ensures chains[i][j] in nexts && nexts[chains[i][j]] == Link(chains[i], j + 1)
  {
  }

  lemma StartMoving(heads: seq<LRUHandle?>, nexts: Nexts, chains: seq<Chain>, contents: Contents, elems: nat, n: nat)
    requires n > 0 && Whole(heads, nexts, chains, contents, elems)
    ensures Halfway(nexts, chains, contents, 0, 0, seq(n, _ => null), seq(n, _ => []), {})
    ensures Total(seq(n, _ => [])) == 0 == Total(chains[..0])
    ensures Apart(chains) && Filed(contents) && nexts.Keys == contents.Values
    ensures |heads| == |chains| && forall b :: 0 <= b < |chains| ==> heads[b] == Link(chains[b], 0)
  {
    NothingMoved(heads, nexts, chains, contents, n);
    WholeIsApart(heads, nexts, chains);
    forall b | 0 <= b < |chains| ensures heads[b] == Link(chains[b], 0) {
      ChainAt(heads, nexts, chains, b);
    }
  }

  lemma FinishMoving(heads: seq<LRUHandle?>, nexts0: Nexts, nexts: Nexts, chains: seq<Chain>, contents: Contents, elems: nat,
                     heads': seq<LRUHandle?>, chains': seq<Chain>, moved: set<LRUHandle>)
    requires Whole(heads, nexts0, chains, contents, elems) && nexts.Keys == nexts0.Keys
    requires Halfway(nexts, chains, contents, |chains|, 0, heads', chains', moved) && Total(chains') == Total(chains)
    ensures Whole(heads', nexts, chains', contents, elems) && elems == Total(chains')
  {
    hide Chained, Maps, Halfway;
    AllMoved(nexts, chains, contents, elems, heads', chains', moved);
  }

  lemma BeforeIsNode(heads: seq<LRUHandle?>, nexts: Nexts, chains: seq<Chain>, contents: Contents, elems: nat, b: nat, j: nat)
    requires Whole(heads, nexts, chains, contents, elems) && b < |chains| && j <= |chains[b]|
    ensures j > 0 ==> chains[b][j - 1] in nexts
    ensures j < |chains[b]| ==> chains[b][j] in nexts
  {
    assert ChainOk(heads[b], nexts, chains[b], b, |chains|);
  }

  lemma CountsAll(heads: seq<LRUHandle?>, nexts: Nexts, chains: seq<Chain>, contents: Contents, elems: nat, id: Id)
    requires Whole(heads, nexts, chains, contents, elems) && id in contents
    ensures elems > 0
  {
    assert contents.Keys != {};
  }

  lemma ChainAt(heads: seq<LRUHandle?>, nexts: Nexts, chains: seq<Chain>, b: nat)
    requires Chained(heads, nexts, chains) && b < |chains|
    ensures |heads| == |chains| && ChainOk(heads[b], nexts, chains[b], b, |chains|)
  {
  }

  lemma AbsentHere(chains: seq<Chain>, contents: Contents, id: Id)
    requires Maps(chains, contents) && id !in contents
    ensures |chains| > 0 && Absent(chains[id.hash % |chains|], id)
  {
  }

  /** Every handle is filed under its own key. */
  ghost predicate Filed(contents: Contents) {
    forall id :: id in contents ==> contents[id].id == id
  }

  lemma MapsIsFiled(chains: seq<Chain>, contents: Contents)
    requires Maps(chains, contents)
    ensures |chains| > 0 && Filed(contents)
  {
  }

  lemma ValuesAdd(contents: Contents, h: LRUHandle)
    requires Filed(contents) && h.id !in contents
    ensures contents[h.id := h].Values == contents.Values + {h}
    ensures |contents[h.id := h]| == |contents| + 1
  {
    var contents' := contents[h.id := h];
    assert contents'.Keys == contents.Keys + {h.id};
    forall x ensures x in contents'.Values <==> x in contents.Values + {h} {
      assert x in contents.Values ==> x.id in contents && contents'[x.id] == x;
      assert x == h ==> contents'[x.id] == x;
    }
  }

  lemma ValuesReplace(contents: Contents, h: LRUHandle)
    requires Filed(contents) && h.id in contents && contents[h.id] != h
    ensures contents[h.id := h].Values == contents.Values - {contents[h.id]} + {h}
    ensures |contents[h.id := h]| == |contents|
  {
    var contents' := contents[h.id := h];
    assert contents'.Keys == contents.Keys;
    forall x ensures x in contents'.Values <==> x in contents.Values - {contents[h.id]} + {h} {
      assert x in contents.Values - {contents[h.id]} ==> x.id in contents && contents'[x.id] == x;
      assert x == h ==> contents'[x.id] == x;
    }
  }

  lemma ValuesRemove(contents: Contents, id: Id)
    requires Filed(contents) && id in contents
    ensures (contents - {id}).Values == contents.Values - {contents[id]}
    ensures |contents - {id}| == |contents| - 1
  {
    var contents' := contents - {id};
    assert contents'.Keys == contents.Keys - {id};
    forall x ensures x in contents'.Values <==> x in contents.Values - {contents[id]} {
      assert x in contents.Values - {contents[id]} ==> x.id in contents && x.id in contents' && contents'[x.id] == x;
    }
  }

  lemma AddLinks(heads: seq<LRUHandle?>, nexts: Nexts, chains: seq<Chain>, b: nat, h: LRUHandle)
    requires Chained(heads, nexts, chains) && h !in nexts
    requires b < |chains| == |heads| && b == h.id.hash % |chains| && Absent(chains[b], h.id)
    ensures var c := chains[b];
            var nexts' := Slotted(nexts[h := null], c, |c|, h);
            && nexts'.Keys == nexts.Keys + {h}
            && Chained(heads[b := SlottedHead(heads[b], |c|, h)], nexts', chains[b := c + [h]])
  {
    hide Chained, ChainOk, Absent;
    var c := chains[b];
    ChainAt(heads, nexts, chains, b);
    AppendOk(heads[b], nexts, c, b, |chains|, h);
    ChainIsHere(heads[b], nexts, c, b, |chains|);
    ChainedUpdate(heads, nexts, chains, b, SlottedHead(heads[b], |c|, h), Slotted(nexts[h := null], c, |c|, h), c + [h]);
  }

  /** Appending h to its chain inserts it into the map. */
  lemma AddChained(heads: seq<LRUHandle?>, nexts: Nexts, chains: seq<Chain>, contents: Contents, elems: nat, b: nat, h: LRUHandle)
    requires Whole(heads, nexts, chains, contents, elems)
    requires h !in nexts && h.id !in contents && b < |chains| == |heads| && b == h.id.hash % |chains|
    ensures var c := chains[b];
            var nexts', chains', contents' := Slotted(nexts[h := null], c, |c|, h), chains[b := c + [h]], contents[h.id := h];
            Whole(heads[b := SlottedHead(heads[b], |c|, h)], nexts', chains', contents', elems + 1)
  {
    hide Chained, Maps, ChainOk, Slotted, SlottedHead, Absent;
    MapsIsFiled(chains, contents);
    AbsentHere(chains, contents, h.id);
    AddLinks(heads, nexts, chains, b, h);
    MapsAdd(chains, contents, b, h);
    TotalUpdate(chains, b, chains[b] + [h]);
    ValuesAdd(contents, h);
  }

  /** Putting h in the place of the entry with its key overwrites it. */
  lemma ReplaceChained(heads: seq<LRUHandle?>, nexts: Nexts, chains: seq<Chain>, contents: Contents, elems: nat, b: nat, h: LRUHandle, j: nat)
    requires b < |chains| == |heads| && b == h.id.hash % |chains|
    requires j < |chains[b]| && chains[b][j].id == h.id && chains[b][j] in nexts && h !in nexts
    requires Whole(heads, nexts, chains, contents, elems)
    ensures Whole(heads[b := SlottedHead(heads[b], j, h)],
                  Slotted(nexts[h := nexts[chains[b][j]]], chains[b], j, h) - {chains[b][j]},
                  chains[b := chains[b][j := h]],
                  contents[h.id := h], elems)
  {
    hide Chained, Maps, ChainOk;
    MapsIsFiled(chains, contents);
    var c := chains[b];
    ChainAt(heads, nexts, chains, b);
    ChainIsHere(heads[b], nexts, c, b, |chains|);
    ChainIsDistinct(heads[b], nexts, c, b, |chains|, j);
    ReplaceOk(heads[b], nexts, c, b, |chains|, j, h);
    var head', nexts' := SlottedHead(heads[b], j, h), Slotted(nexts[h := nexts[c[j]]], c, j, h);
    ChainIsHere(head', nexts', c[j := h], b, |chains|);
    ChainFrame(head', nexts', nexts' - {c[j]}, c[j := h], b, |chains|);
    ChainedUpdate(heads, nexts, chains, b, head', nexts' - {c[j]}, c[j := h]);
    forall i | 0 <= i < |chains| && i != b ensures Absent(chains[i], h.id) {
      ElsewhereAbsent(heads, nexts, chains, i, h.id);
    }
    MapsReplace(chains, contents, b, j, h);
    FoundIsFiled(chains, contents, b, j);
    TotalUpdate(chains, b, c[j := h]);
    ValuesReplace(contents, h);
  }

  lemma FoundIsFiled(chains: seq<Chain>, contents: Contents, b: nat, j: nat)
    requires Maps(chains, contents) && b < |chains| && j < |chains[b]|
    ensures chains[b][j].id in contents && contents[chains[b][j].id] == chains[b][j]
  {
  }

  lemma ChainIsDistinct(head: LRUHandle?, nexts: Nexts, c: Chain, b: nat, n: nat, j: nat)
    requires ChainOk(head, nexts, c, b, n) && j < |c|
    ensures forall k :: 0 <= k < |c| && k != j ==> c[k].id != c[j].id
  {
  }

  /** Taking the entry at position j out of its chain removes it from the map. */
  lemma RemoveChained(heads: seq<LRUHandle?>, nexts: Nexts, chains: seq<Chain>, contents: Contents, elems: nat, b: nat, id: Id, j: nat)
    requires Whole(heads, nexts, chains, contents, elems)
    requires b < |chains| == |heads| && b == id.hash % |chains|
    requires var c := chains[b]; j < |c| && c[j].id == id && c[j] in nexts
    ensures var c := chains[b];
            var nexts', chains', contents' := Slotted(nexts, c, j, nexts[c[j]]) - {c[j]}, chains[b := c[..j] + c[j + 1..]], contents - {id};
            elems > 0 && Whole(heads[b := SlottedHead(heads[b], j, nexts[c[j]])], nexts', chains', contents', elems - 1)
  {
    hide Chained, Maps, ChainOk;
    MapsIsFiled(chains, contents);
    var c := chains[b];
    var c' := c[..j] + c[j + 1..];
    ChainAt(heads, nexts, chains, b);
    ChainIsHere(heads[b], nexts, c, b, |chains|);
    ChainIsDistinct(heads[b], nexts, c, b, |chains|, j);
    RemoveOk(heads[b], nexts, c, b, |chains|, j);
    var head', nexts' := SlottedHead(heads[b], j, nexts[c[j]]), Slotted(nexts, c, j, nexts[c[j]]);
    ChainIsHere(head', nexts', c', b, |chains|);
    assert forall k :: 0 <= k < |c'| ==> c'[k] == c[Skip(k, j)];
    ChainFrame(head', nexts', nexts' - {c[j]}, c', b, |chains|);
    ChainedUpdate(heads, nexts, chains, b, head', nexts' - {c[j]}, c');
    forall i | 0 <= i < |chains| && i != b ensures Absent(chains[i], id) {
      ElsewhereAbsent(heads, nexts, chains, i, id);
    }
    MapsRemove(chains, contents, b, j);
    FoundIsFiled(chains, contents, b, j);
    TotalUpdate(chains, b, c');
    ValuesRemove(contents, id);
  }

  // ---- growing -------------------------------------------------------------

  /** Position (b, k) of the old chains comes before position (i, j). */
  predicate Before(b: nat, k: nat, i: nat, j: nat) {
    b < i || (b == i && k < j)
  }

  /** No handle stands in two places. */
  ghost predicate Apart(chains: seq<Chain>) {
    forall b, k, b', k' ::
      (0 <= b < |chains| && 0 <= k < |chains[b]| && 0 <= b' < |chains| && 0 <= k' < |chains[b']| && chains[b][k] == chains[b'][k'])
      ==> b == b' && k == k'
  }

  /** All handles of the old chains before (i, j) have been moved to the new
      chains; the others are still linked as they were. */
  ghost predicate Halfway(nexts: Nexts, chains: seq<Chain>, contents: Contents, i: nat, j: nat,
                          heads': seq<LRUHandle?>, chains': seq<Chain>, moved: set<LRUHandle>) {
    && |chains'| > 0
    && Chained(heads', nexts, chains')
    && (forall b, k :: 0 <= b < |chains'| && 0 <= k < |chains'[b]| ==> chains'[b][k] in moved)
    && (forall x :: x in moved ==> x in chains'[x.id.hash % |chains'|] && x in contents.Values)
    && (forall b, k :: 0 <= b < |chains| && 0 <= k < |chains[b]| ==> (Before(b, k, i, j) <==> chains[b][k] in moved))
    && (forall b, k :: 0 <= b < |chains| && 0 <= k < |chains[b]| && !Before(b, k, i, j) ==>
          chains[b][k] in nexts && nexts[chains[b][k]] == Link(chains[b], k + 1))
  }

  lemma WholeIsApart(heads: seq<LRUHandle?>, nexts: Nexts, chains: seq<Chain>)
    requires Chained(heads, nexts, chains)
    ensures Apart(chains)
  {
    forall b, k, b', k' | 0 <= b < |chains| && 0 <= k < |chains[b]| && 0 <= b' < |chains| && 0 <= k' < |chains[b']| &&
                          chains[b][k] == chains[b'][k']
      ensures b == b' && k == k'
    {
      ChainIsHere(heads[b], nexts, chains[b], b, |chains|);
      ChainIsHere(heads[b'], nexts, chains[b'], b', |chains|);
      ChainIsDistinct(heads[b], nexts, chains[b], b, |chains|, k);
    }
  }

  lemma MoveOne(nexts: Nexts, chains: seq<Chain>, contents: Contents, i: nat, j: nat,
                heads': seq<LRUHandle?>, chains': seq<Chain>, moved: set<LRUHandle>, h: LRUHandle, b': nat)
    requires Halfway(nexts, chains, contents, i, j, heads', chains', moved) && Apart(chains) && Filed(contents)
    requires i < |chains| && j < |chains[i]| && h == chains[i][j] && h in contents.Values
    requires b' < |chains'| == |heads'| && b' == h.id.hash % |chains'|
    ensures Halfway(nexts[h := heads'[b']], chains, contents, i, j + 1, heads'[b' := h], chains'[b' := [h] + chains'[b']], moved + {h})
  {
    hide ChainOk, Chained;
    assert Absent(chains'[b'], h.id) by {
      forall k | 0 <= k < |chains'[b']| ensures chains'[b'][k].id != h.id {
        assert chains'[b'][k] in moved;
      }
    }
    ChainAt(heads', nexts, chains', b');
    PushOk(heads'[b'], nexts, chains'[b'], b', |chains'|, h);
    ChainedUpdate(heads', nexts, chains', b', h, nexts[h := heads'[b']], [h] + chains'[b']);
  }

  lemma NothingMoved(heads: seq<LRUHandle?>, nexts: Nexts, chains: seq<Chain>, contents: Contents, n: nat)
    requires n > 0 && Chained(heads, nexts, chains)
    ensures Halfway(nexts, chains, contents, 0, 0, seq(n, _ => null), seq(n, _ => []), {})
    ensures Total(seq(n, _ => [])) == 0
  {
    forall b, k | 0 <= b < |chains| && 0 <= k < |chains[b]|
      ensures chains[b][k] in nexts && nexts[chains[b][k]] == Link(chains[b], k + 1)
    {
      assert ChainOk(heads[b], nexts, chains[b], b, |chains|);
    }
    TotalEmpty(n);
  }

  lemma {:induction false} TotalEmpty(n: nat)
    ensures Total(seq(n, _ => [])) == 0
  {
    if n > 0 {
      var chains: seq<Chain> := seq(n, _ => []);
      TotalEmpty(n - 1);
      assert chains[..n - 1] == seq(n - 1, _ => []);
    }
  }

  lemma ChainMoved(nexts: Nexts, chains: seq<Chain>, contents: Contents, i: nat,
                   heads': seq<LRUHandle?>, chains': seq<Chain>, moved: set<LRUHandle>)
    requires i < |chains| && Halfway(nexts, chains, contents, i, |chains[i]|, heads', chains', moved)
    ensures Halfway(nexts, chains, contents, i + 1, 0, heads', chains', moved)
  {
    hide Chained;
  }

  lemma AllMoved(nexts: Nexts, chains: seq<Chain>, contents: Contents, elems: nat,
                 heads': seq<LRUHandle?>, chains': seq<Chain>, moved: set<LRUHandle>)
    requires Maps(chains, contents) && nexts.Keys == contents.Values && elems == |contents| == Total(chains')
    requires Halfway(nexts, chains, contents, |chains|, 0, heads', chains', moved)
    ensures Whole(heads', nexts, chains', contents, elems)
  {
    hide Chained;
    forall id | id in contents ensures contents[id].id == id && contents[id] in chains'[id.hash % |chains'|] {
      var b := id.hash % |chains|;
      var k :| 0 <= k < |chains[b]| && chains[b][k] == contents[id];
      assert contents[id] in moved;
    }
    forall b, k | 0 <= b < |chains'| && 0 <= k < |chains'[b]|
      ensures chains'[b][k].id in contents && contents[chains'[b][k].id] == chains'[b][k]
    {
      assert chains'[b][k] in contents.Values;
    }
  }
}
