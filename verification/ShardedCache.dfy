/** The split of a cache into shards (cache/sharded_cache.cc, cache/sharded_cache.h). */
module ShardedCache {
  import opened LruTable
  import opened LruList
  import opened LruShard
  import opened LruStory
  import opened LruRun

  function Pow2(n: nat): (r: nat)
    ensures r > 0
  {
    if n == 0 then 1 else 2 * Pow2(n - 1)
  }

  lemma Pow2Is(n: nat)
    ensures Pow2(0) == 1 && Pow2(1) == 2 && Pow2(n + 1) == Pow2(n) + Pow2(n)
  {
  }

  /** The capacity of each of n shards. */
  function PerShard(capacity: nat, n: nat): nat
    requires n > 0
  {
    (capacity + (n - 1)) / n
  }

  /** The shards hold the capacity between them, and less than n more. */
  lemma PerShardCovers(capacity: nat, n: nat)
    requires n > 0
    ensures capacity <= n * PerShard(capacity, n) < capacity + n
  {
    var sum := capacity + (n - 1);
    assert sum == n * (sum / n) + sum % n;
  }

  /** What the shards use together. */
  function Usage(shards: seq<LRUCacheShard>): nat
    reads shards
  {
    if shards == [] then 0 else Usage(shards[..|shards| - 1]) + shards[|shards| - 1].usage
  }

  /** It is the sum: a shard counts by itself, and parts of the cache add up. */
  lemma {:induction false} UsageIsSum(a: seq<LRUCacheShard>, b: seq<LRUCacheShard>, x: LRUCacheShard)
    ensures Usage([x]) == x.usage && Usage([]) == 0
    ensures Usage(a + b) == Usage(a) + Usage(b)
    decreases |b|
  {
    assert [x][..0] == [];
    if b == [] {
      assert a + b == a;
    } else {
      var last := |b| - 1;
      UsageIsSum(a, b[..last], x);
      assert (a + b)[..|a| + last] == a + b[..last];
    }
  }

  lemma {:induction false} UsageBelow(shards: seq<LRUCacheShard>, bound: nat)
    requires forall i :: 0 <= i < |shards| ==> shards[i].usage <= bound
    ensures Usage(shards) <= |shards| * bound
  {
    if shards != [] {
      UsageBelow(shards[..|shards| - 1], bound);
    }
  }

  /** What the shards use, added up one after the other: below the capacity plus the
      number of shards as long as every shard stays within its part. */
  method GetUsage(shards: seq<LRUCacheShard>, ghost capacity: nat) returns (usage: nat)
    ensures usage == Usage(shards)
    ensures |shards| > 0 && (forall i :: 0 <= i < |shards| ==> shards[i].usage <= PerShard(capacity, |shards|)) ==>
              usage < capacity + |shards|
  {
    usage := 0;
    for s := 0 to |shards|
      invariant usage == Usage(shards[..s])
    {
      assert shards[..s + 1][..s] == shards[..s];
      usage := usage + shards[s].usage;
    }
    assert shards[..|shards|] == shards;
    if |shards| > 0 && forall i :: 0 <= i < |shards| ==> shards[i].usage <= PerShard(capacity, |shards|) {
      UsageBelow(shards, PerShard(capacity, |shards|));
      PerShardCovers(capacity, |shards|);
    }
  }

  lemma NeverLoweredBefore(capacity: nat, ops: seq<Op>, n: nat)
    requires NeverLowered(capacity, ops) && n <= |ops|
    ensures NeverLowered(capacity, ops[..n])
  {
    forall i | 0 <= i < n && ops[..n][i].SetCapacity? ensures ops[..n][i].capacity >= CapacityAfter(capacity, ops[..n][..i]) {
      assert ops[..n][..i] == ops[..i] && ops[..n][i] == ops[i];
    }
  }

  lemma {:induction false} CapacityGrows(capacity: nat, ops: seq<Op>, n: nat)
    requires NeverLowered(capacity, ops) && n <= |ops|
    ensures CapacityAfter(capacity, ops[..n]) <= CapacityAfter(capacity, ops)
    decreases |ops|
  {
    if n < |ops| {
      var before := ops[..|ops| - 1];
      NeverLoweredBefore(capacity, ops, |ops| - 1);
      CapacityGrows(capacity, before, n);
      assert before[..n] == ops[..n];
    } else {
      assert ops[..n] == ops;
    }
  }

  /** The handles in the tables of all shards or held from any of them. */
  ghost function AllAlive(tables: seq<Contents>, helds: seq<Held>): set<LRUHandle>
    requires |tables| == |helds|
  {
    if tables == [] then {}
    else
      var last := |tables| - 1;
      AllAlive(tables[..last], helds[..last]) + Alive(tables[last], helds[last])
  }

  lemma MoreAlive(tables: seq<Contents>, helds: seq<Held>, table: Contents, held: Held)
    requires |tables| == |helds|
    ensures AllAlive(tables + [table], helds + [held]) == AllAlive(tables, helds) + Alive(table, held)
  {
    assert (tables + [table])[..|tables|] == tables && (helds + [held])[..|helds|] == helds;
  }

  lemma NothingAlive()
    ensures AllAlive([], []) == {} && Weight({}) == 0
  {
  }

  /** One run of clients on every shard of a cache of n shards: the cache uses the charge
      of all that is in its tables or held. Under a strict limit and with no shard's
      capacity ever lowered, every shard stays within its own. If the runs raise none
      above its part of some capacity of the cache, the cache uses less than that plus n. */
  method RunShards(capacity: nat, strict: bool, ratio: real, work: seq<seq<Op>>, ghost final: nat)
    returns (shards: seq<LRUCacheShard>, usage: nat, ghost tables: seq<Contents>, ghost helds: seq<Held>)
    requires |work| > 0
    ensures |shards| == |tables| == |helds| == |work| && usage == Usage(shards)
    ensures forall i :: 0 <= i < |work| ==> tables[i] == shards[i].table.contents && Holds(shards[i].m, shards[i].live, helds[i])
    ensures usage == Weight(AllAlive(tables, helds))
    ensures forall i :: 0 <= i < |work| && StaysStrict(strict, work[i]) && NeverLowered(PerShard(capacity, |work|), work[i]) ==>
              shards[i].usage <= shards[i].capacity
    ensures (forall i :: 0 <= i < |work| ==>
              && StaysStrict(strict, work[i]) && NeverLowered(PerShard(capacity, |work|), work[i])
              && CapacityAfter(PerShard(capacity, |work|), work[i]) <= PerShard(final, |work|)) ==> usage < final + |work|
  {
    hide NeverLowered, CapacityAfter, LRUCacheShard.Valid, Usage, Story, Table, Flat, Alive, Holds, AllAlive, Weight;
    shards, tables, helds := [], [], [];
    ghost var all: set<LRUHandle> := {};
    NothingAlive();
    assert Usage([]) == 0 by {
      NoShards();
    }
    for i := 0 to |work|
      invariant |shards| == |tables| == |helds| == i
      invariant forall j :: 0 <= j < i ==> tables[j] == shards[j].table.contents && Holds(shards[j].m, shards[j].live, helds[j])
      invariant all == AllAlive(tables, helds) && Usage(shards) == Weight(all)
      invariant forall j :: 0 <= j < i && StaysStrict(strict, work[j]) && NeverLowered(PerShard(capacity, |work|), work[j]) ==>
                  shards[j].usage <= shards[j].capacity <= CapacityAfter(PerShard(capacity, |work|), work[j])
    {
      var c, held, seen, done, parts, between := LruRun.Run(PerShard(capacity, |work|), strict, ratio, work[i]);
      if NeverLowered(PerShard(capacity, |work|), work[i]) {
        NeverLoweredBefore(PerShard(capacity, |work|), work[i], done);
        CapacityGrows(PerShard(capacity, |work|), work[i], done);
      }
      UsageIsSum(shards, [c], c);
      MoreAlive(tables, helds, c.table.contents, held);
      WeightUnion(all, Alive(c.table.contents, held));
      all := all + Alive(c.table.contents, held);
      shards, tables, helds := shards + [c], tables + [c.table.contents], helds + [held];
    }
    usage := GetUsage(shards, final);
  }

  lemma NoShards()
    ensures Usage([]) == 0
  {
  }

  const MinShardSize: nat := 512 * 1024

  /** Shifting `all` right has come to `shards`, with p the power of two passed. */
  predicate Shifted(all: nat, p: nat, shards: nat) {
    p * shards <= all < p * (shards + 1)
  }

  lemma Halved(p: nat, shards: nat, all: nat)
    requires p * shards <= all < p * (shards + 1)
    ensures (2 * p) * (shards / 2) <= all < (2 * p) * (shards / 2 + 1)
  {
    var half := shards / 2;
    assert p * (2 * half) <= p * shards;
    assert p * (shards + 1) <= p * (2 * half + 2);
  }

  lemma AtLeastOnce(a: nat, b: nat)
    requires b > 0
    ensures a <= a * b
  {
  }

  lemma ShiftMore(all: nat, p: nat, shards: nat)
    requires Shifted(all, p, shards)
    ensures Shifted(all, 2 * p, shards / 2)
    ensures if shards / 2 == 0 then all < 2 * p else 2 * p <= all
  {
    Halved(p, shards, all);
    if shards / 2 > 0 {
      AtLeastOnce(2 * p, shards / 2);
    }
  }

  /** As many shard bits as leave every shard the minimal size, but at most 6. */
  method GetDefaultCacheShardBits(capacity: nat) returns (bits: nat)
    ensures bits <= 6
    ensures bits > 0 ==> Pow2(bits) <= capacity / 0x80000
    ensures bits < 6 ==> capacity / 0x80000 < Pow2(bits + 1)
  {
    hide Shifted;
    bits := 0;
    var shards: nat := capacity / MinShardSize;
    ghost var all := shards;
    assert Shifted(all, Pow2(0), shards) by {
      ShiftNone(all);
    }
    while true
      invariant bits < 6
      invariant Shifted(all, Pow2(bits), shards)
      invariant bits > 0 ==> Pow2(bits) <= all
      decreases 6 - bits
    {
      ShiftMore(all, Pow2(bits), shards);
      shards := shards / 2;
      if shards == 0 { break; }
      bits := bits + 1;
      if bits >= 6 { return; }
    }
  }

  lemma ShiftNone(all: nat)
    ensures Shifted(all, 1, all)
  {
  }
}
