/** The two forms of a range scan over the shards (ycsb.cpp): one merged scan,
    or one scan per shard that the dispatcher broadcasts to all workers. */
module Scan {
  import opened MapCursor
  import opened SnapshotView
  import opened DbIter
  import opened MergingIterator
  import opened InternalKeys
  import WorkersProof
  import Workers

  /** The first n keys of m from `start` on. */
  ghost function Take(m: map<UserKey, Value>, start: UserKey, n: nat): seq<UserKey>
    decreases n
  {
    if n == 0 then []
    else
      match FirstFrom(m, start)
      case None => []
      case Some(k) => [k] + Take(m, k + 1, n - 1)
  }

  lemma TakeOne(m: map<UserKey, Value>, start: UserKey, n: nat)
    requires n > 0
    ensures var c := FirstFrom(m, start);
            Take(m, start, n) == if c.Some? then [c.value] + Take(m, c.value + 1, n - 1) else []
  {
  }

  ghost predicate Increasing(s: seq<UserKey>) {
    forall i, j :: 0 <= i < j < |s| ==> s[i] < s[j]
  }

  /** These are keys of the map from `start` on, in order, at most n; and a key that is
      missing is missing because there are n before it. */
  lemma {:induction false} TakeIs(m: map<UserKey, Value>, start: UserKey, n: nat)
    ensures |Take(m, start, n)| <= n && Increasing(Take(m, start, n))
    ensures forall k :: k in Take(m, start, n) ==> k in m && start <= k
    ensures forall k :: k in m && start <= k && k !in Take(m, start, n) ==>
              |Take(m, start, n)| == n && forall j :: j in Take(m, start, n) ==> j < k
    decreases n
  {
    hide FirstFrom, Take;
    if n == 0 {
      TakeNone(m, start);
    } else {
      var c := FirstFrom(m, start);
      TakeOne(m, start, n);
      if c.Some? {
        TakeIs(m, c.value + 1, n - 1);
        var rest := Take(m, c.value + 1, n - 1);
        assert forall i :: 0 <= i < |rest| ==> rest[i] in rest;
      }
    }
  }

  /** A worker's scan request: seek, then step while fewer than scanSize keys
      have been counted. It returns the keys it stood on. */
  method WorkerScan(it: DBIter, start: UserKey, scanSize: int) returns (visited: seq<UserKey>)
    requires it.Valid()
    modifies it
    ensures visited == Take(View(it.db), start, if scanSize < 1 then 1 else scanSize)
  {
    hide DBIter.Valid, View, FirstFrom, Take;
    it.ValidIsSound();
    ghost var m, n := View(it.db), if scanSize < 1 then 1 else scanSize;
    it.Seek(start);
    TakeOne(m, start, n);
    visited := if it.valid then [it.savedKey] else [];
    var i := 1;
    while i < scanSize && it.valid
      invariant it.Valid() && 1 <= i <= n
      invariant Take(m, start, n) == visited + if it.valid then Take(m, it.savedKey + 1, n - i) else []
      decreases n - i
    {
      TakeOne(m, it.savedKey + 1, n - i);
      it.Next();
      if it.valid { visited := visited + [it.savedKey]; }
      i := i + 1;
    }
    if it.valid { TakeNone(m, it.savedKey + 1); }
  }

  lemma TakeNone(m: map<UserKey, Value>, start: UserKey)
    ensures Take(m, start, 0) == []
  {
  }

  /** The scan over a merged iterator. */
  method MergedScan(it: Merger, start: UserKey, scanSize: int) returns (visited: seq<UserKey>)
    requires it.Valid()
    modifies it, it.kids
    ensures visited == Take(Union(it.views), start, if scanSize < 0 then 0 else scanSize)
  {
    hide Merger.Valid, Merger.Cursor, DBIter.Valid, View, Union, FirstFrom, Take;
    ghost var m, n := Union(it.views), if scanSize < 0 then 0 else scanSize;
    it.Seek(start);
    visited := [];
    var j := 0;
    ghost var next := start;
    while j < scanSize && it.current >= 0
      invariant it.Valid() && 0 <= j <= n
      invariant it.Cursor() == FirstFrom(m, next)
      invariant Take(m, start, n) == visited + Take(m, next, n - j)
      decreases n - j
    {
      var key := it.Key();
      TakeOne(m, next, n - j);
      visited := visited + [key];
      next := key + 1;
      it.Next();
      j := j + 1;
    }
    if j < n { it.OffTheEnd(); TakeOne(m, next, n - j); } else { TakeNone(m, next); }
  }

  /** Routing a key to shard key mod n keeps the shards disjoint. */
  lemma RoutedShardsAreDisjoint(views: seq<map<UserKey, Value>>)
    requires forall i, k :: 0 <= i < |views| && k in views[i] ==> k % |views| == i
    ensures Disjoint(views)
  {
  }

  lemma {:induction false} TakePrefix(m: map<UserKey, Value>, start: UserKey, n: nat)
    ensures Take(m, start, n) <= Take(m, start, n + 1)
    decreases n
  {
    var c := FirstFrom(m, start);
    if n > 0 && c.Some? { TakePrefix(m, c.value + 1, n - 1); }
  }

  /** A key f at or before the first one found can be stepped over at the price
      of one key. */
  lemma TakeAfter(m: map<UserKey, Value>, start: UserKey, f: UserKey, n: nat, k: UserKey)
    requires start <= f
    requires var c := FirstFrom(m, start); c.Some? ==> f <= c.value
    requires k in Take(m, f + 1, n)
    ensures k in Take(m, start, n + 1)
  {
    var c := FirstFrom(m, start);
    if c != Some(f) {
      assert IsFirstFrom(m, f + 1, c);
      TakePrefix(m, start, n);
    }
  }

  /** Whatever the merged scan visits, the worker of that key's shard visits. */
  lemma {:induction false} BroadcastCoversMerged(views: seq<map<UserKey, Value>>, i: nat, start: UserKey, n: nat, k: UserKey)
    requires i < |views| && k in views[i]
    requires k in Take(Union(views), start, n)
    ensures k in Take(views[i], start, n)
    decreases n
  {
    hide Union, FirstFrom, Take;
    TakeSome(Union(views), start, n, k);
    TakeOne(Union(views), start, n);
    TakeOne(views[i], start, n);
    var f := FirstFrom(Union(views), start).value;
    var c := FirstFrom(views[i], start);
    if c.Some? { UnionHas(views, c.value); }
    if k != f {
      BroadcastCoversMerged(views, i, f + 1, n - 1, k);
      TakeAfter(views[i], start, f, n - 1, k);
    }
  }

  lemma TakeSome(m: map<UserKey, Value>, start: UserKey, n: nat, k: UserKey)
    requires k in Take(m, start, n)
    ensures n > 0 && FirstFrom(m, start).Some?
  {
  }

  // ---- the two scans side by side ------------------------------------------------

  /** Shard q of every db holds only keys that were committed to it. */
  ghost predicate Holds(cfg: Workers.Config, steps: seq<Workers.Step>, dbs: seq<Db>)
    requires cfg.Valid()
  {
    forall q, i :: 0 <= q < |dbs| && 0 <= i < |dbs[q].run| ==> WorkersProof.Commits(cfg, steps, q, dbs[q].run[i].key)
  }

  lemma ShownHasResidue(cfg: Workers.Config, steps: seq<Workers.Step>, dbs: seq<Db>, q: nat, k: UserKey)
    requires cfg.Valid() && Holds(cfg, steps, dbs) && q < |dbs| && Sound(dbs[q]) && k in View(dbs[q])
    ensures k % cfg.queues == q
  {
    var i :| 0 <= i < |dbs[q].run| && dbs[q].run[i].key == k;
    WorkersProof.CommittedResidue(cfg, steps, q, k);
  }

  lemma {:induction false} TakeIsThere(m: map<UserKey, Value>, start: UserKey, n: nat, k: UserKey)
    requires k in Take(m, start, n)
    ensures k in m
    decreases n
  {
    hide FirstFrom;
    TakeSome(m, start, n, k);
    TakeOne(m, start, n);
    var c := FirstFrom(m, start);
    if k != c.value {
      TakeIsThere(m, c.value + 1, n - 1, k);
    }
  }

  /** Over shards that hold what a run of dispatcher and workers has committed, each
      key that the merged scan visits is visited by the worker of its residue. */
  method BothScans(cfg: Workers.Config, ghost steps: seq<Workers.Step>, dbs: seq<Db>, maxSkip: nat, start: UserKey, scanSize: int)
    returns (merged: seq<UserKey>, byWorker: seq<seq<UserKey>>)
    requires cfg.Valid() && |dbs| == cfg.queues && Holds(cfg, steps, dbs)
    requires forall q :: 0 <= q < |dbs| ==> WellFormed(dbs[q].run)
    ensures |byWorker| == |dbs|
    ensures forall k :: k in merged ==> k in byWorker[k % |dbs|]
  {
    hide View, WellFormed, Ordered, Union, Disjoint, DBIter.Valid, Merger.Valid, Take, Holds, FirstFrom;
    forall q | 0 <= q < |dbs| ensures Ordered(dbs[q].run) {
      WellFormedIsOrdered(dbs[q].run);
    }
    ghost var views := seq(|dbs|, q requires 0 <= q < |dbs| => View(dbs[q]));
    forall q, k | 0 <= q < |views| && k in views[q] ensures k % |views| == q {
      ShownHasResidue(cfg, steps, dbs, q, k);
    }
    RoutedShardsAreDisjoint(views);
    ghost var n := if scanSize < 1 then 1 else scanSize;
    byWorker := [];
    for q := 0 to |dbs|
      invariant |byWorker| == q
      invariant forall j :: 0 <= j < q ==> byWorker[j] == Take(views[j], start, n)
    {
      var it := new DBIter(dbs[q], maxSkip);
      var visited := WorkerScan(it, start, scanSize);
      byWorker := byWorker + [visited];
    }
    var kids := OpenShards(dbs, maxSkip);
    assert Views(kids) == views;
    var it := new Merger(kids);
    merged := MergedScan(it, start, scanSize);
    ghost var m := if scanSize < 0 then 0 else scanSize;
    forall k | k in merged ensures k in byWorker[k % |dbs|] {
      TakeSome(Union(views), start, m, k);
      TakeIsThere(Union(views), start, m, k);
      UnionHas(views, k);
      var q :| 0 <= q < |views| && k in views[q];
      BroadcastCoversMerged(views, q, start, m, k);
    }
  }
}
