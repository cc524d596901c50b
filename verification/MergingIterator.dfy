/** The k-way merge over the iterators of the shards (merge_iter.h). */
module MergingIterator {
  import opened MapCursor
  import opened InternalKeys
  import opened SnapshotView
  import opened DbIter

  // ---- the union of the shards ---------------------------------------------

  ghost predicate InSome(views: seq<map<UserKey, Value>>, k: UserKey) {
    exists i :: 0 <= i < |views| && k in views[i]
  }

  ghost predicate Disjoint(views: seq<map<UserKey, Value>>) {
    forall i, j, k :: 0 <= i < |views| && 0 <= j < |views| && k in views[i] && k in views[j] ==> i == j
  }

  ghost function Union(views: seq<map<UserKey, Value>>): map<UserKey, Value> {
    if views == [] then map[] else views[0] + Union(views[1..])
  }

  lemma UnionHas(views: seq<map<UserKey, Value>>, k: UserKey)
    ensures k in Union(views) <==> InSome(views, k)
  {
    if views != [] {
      UnionHas(views[1..], k);
      if InSome(views[1..], k) {
        var i :| 0 <= i < |views[1..]| && k in views[1..][i];
        assert k in views[i + 1];
      }
      if InSome(views, k) {
        var i :| 0 <= i < |views| && k in views[i];
        if i > 0 { assert k in views[1..][i - 1]; }
      }
    }
  }

  lemma UnionAt(views: seq<map<UserKey, Value>>, i: nat, k: UserKey)
    requires Disjoint(views) && i < |views| && k in views[i]
    ensures k in Union(views) && Union(views)[k] == views[i][k]
  {
    UnionHas(views, k);
    UnionHas(views[1..], k);
    if 0 < i {
      assert k in views[1..][i - 1];
      UnionAt(views[1..], i - 1, k);
    } else {
      assert forall j :: 0 <= j < |views[1..]| ==> views[1..][j] == views[j + 1];
    }
  }

  /** Where each shard stands when the merged cursor looks at or after t. */
  ghost predicate AllFirstFrom(views: seq<map<UserKey, Value>>, t: UserKey, cs: seq<Cursor>) {
    |cs| == |views| && forall i :: 0 <= i < |cs| ==> cs[i] == FirstFrom(views[i], t)
  }

  ghost predicate AllLastUpTo(views: seq<map<UserKey, Value>>, t: UserKey, cs: seq<Cursor>) {
    |cs| == |views| && forall i :: 0 <= i < |cs| ==> cs[i] == LastUpTo(views[i], t)
  }

  /** Position i holds the smallest of the cursors; -1 when all are off. */
  ghost predicate IsSmallest(cs: seq<Cursor>, i: int) {
    && -1 <= i < |cs|
    && (i == -1 ==> forall j :: 0 <= j < |cs| ==> cs[j].None?)
    && (i >= 0 ==> cs[i].Some? && forall j :: 0 <= j < |cs| && cs[j].Some? ==> cs[i].value <= cs[j].value)
  }

  ghost predicate IsLargest(cs: seq<Cursor>, i: int) {
    && -1 <= i < |cs|
    && (i == -1 ==> forall j :: 0 <= j < |cs| ==> cs[j].None?)
    && (i >= 0 ==> cs[i].Some? && forall j :: 0 <= j < |cs| && cs[j].Some? ==> cs[j].value <= cs[i].value)
  }

  ghost function At(cs: seq<Cursor>, i: int): Cursor {
    if 0 <= i < |cs| then cs[i] else None
  }

  lemma SmallestIsFirst(views: seq<map<UserKey, Value>>, t: UserKey, cs: seq<Cursor>, i: int)
    requires AllFirstFrom(views, t, cs) && IsSmallest(cs, i)
    ensures At(cs, i) == FirstFrom(Union(views), t)
  {
    var m := Union(views);
    forall k | k in m && t <= k ensures i >= 0 && cs[i].value <= k {
      UnionHas(views, k);
      var j :| 0 <= j < |views| && k in views[j];
      assert IsFirstFrom(views[j], t, cs[j]);
    }
    if i >= 0 { UnionHas(views, cs[i].value); }
    assert IsFirstFrom(m, t, At(cs, i));
    assert IsFirstFrom(m, t, FirstFrom(m, t));
  }

  lemma LargestIsLast(views: seq<map<UserKey, Value>>, t: UserKey, cs: seq<Cursor>, i: int)
    requires AllLastUpTo(views, t, cs) && IsLargest(cs, i)
    ensures At(cs, i) == LastUpTo(Union(views), t)
  {
    var m := Union(views);
    forall k | k in m && k <= t ensures i >= 0 && k <= cs[i].value {
      UnionHas(views, k);
      var j :| 0 <= j < |views| && k in views[j];
      assert IsLastUpTo(views[j], t, cs[j]);
    }
    if i >= 0 { UnionHas(views, cs[i].value); }
    assert IsLastUpTo(m, t, At(cs, i));
    assert IsLastUpTo(m, t, LastUpTo(m, t));
  }

  /** A shard without key k stands at the same place seen from k and from its
      neighbours. */
  lemma AbsentKey(m: map<UserKey, Value>, k: UserKey)
    requires k !in m
    ensures FirstFrom(m, k) == FirstFrom(m, k + 1)
    ensures LastUpTo(m, k) == LastUpTo(m, k - 1)
  {
    assert IsFirstFrom(m, k, FirstFrom(m, k + 1));
    assert IsLastUpTo(m, k, LastUpTo(m, k - 1));
  }

  /** The last key before t is the one before the first key from t on, or the
      last key of all. */
  lemma StepBack(m: map<UserKey, Value>, t: UserKey)
    ensures var c := FirstFrom(m, t);
            LastUpTo(m, t - 1) == if c.Some? then LastUpTo(m, c.value - 1) else Last(m)
  {
    var c := FirstFrom(m, t);
    if c.Some? {
      assert IsLastUpTo(m, t - 1, LastUpTo(m, c.value - 1));
    } else {
      assert IsLastUpTo(m, t - 1, Last(m));
    }
  }

  /** Starting later, but not past the first key found, finds the same key. */
  lemma LaterStart(m: map<UserKey, Value>, t: UserKey, s: UserKey)
    requires t <= s
    requires var c := FirstFrom(m, t); c.Some? ==> s <= c.value
    ensures FirstFrom(m, s) == FirstFrom(m, t)
  {
    assert IsFirstFrom(m, s, FirstFrom(m, t));
  }

  lemma EarlierEnd(m: map<UserKey, Value>, t: UserKey, s: UserKey)
    requires s <= t
    requires var c := LastUpTo(m, t); c.Some? ==> c.value <= s
    ensures LastUpTo(m, s) == LastUpTo(m, t)
  {
    assert IsLastUpTo(m, s, LastUpTo(m, t));
  }

  /** A bound below every key of every shard. */
  lemma LowestOf(views: seq<map<UserKey, Value>>) returns (t: UserKey)
    ensures First(Union(views)) == FirstFrom(Union(views), t)
    ensures forall i :: 0 <= i < |views| ==> First(views[i]) == FirstFrom(views[i], t)
  {
    var m := Union(views);
    t := if First(m).Some? then First(m).value else 0;
    assert IsFirstFrom(m, t, First(m));
    forall i | 0 <= i < |views| ensures First(views[i]) == FirstFrom(views[i], t) {
      forall k | k in views[i] ensures t <= k { UnionHas(views, k); }
      assert IsFirstFrom(views[i], t, First(views[i]));
    }
  }

  /** A bound above every key of every shard. */
  lemma HighestOf(views: seq<map<UserKey, Value>>) returns (t: UserKey)
    ensures Last(Union(views)) == LastUpTo(Union(views), t)
    ensures forall i :: 0 <= i < |views| ==> Last(views[i]) == LastUpTo(views[i], t)
  {
    var m := Union(views);
    t := if Last(m).Some? then Last(m).value else 0;
    assert IsLastUpTo(m, t, Last(m));
    forall i | 0 <= i < |views| ensures Last(views[i]) == LastUpTo(views[i], t) {
      forall k | k in views[i] ensures k <= t { UnionHas(views, k); }
      assert IsLastUpTo(views[i], t, Last(views[i]));
    }
  }

  // ---- the iterator --------------------------------------------------------

  class Merger {
    const kids: seq<DBIter>
    ghost const views: seq<map<UserKey, Value>>

    var current: int  // index into kids, -1 for a null current_
    var direction: Direction

    /** The shards' iterators are distinct, sound, and show disjoint maps. */
    ghost predicate Sane()
      reads this, kids
    {
      && |views| == |kids|
      && (forall i, j :: 0 <= i < j < |kids| ==> kids[i] != kids[j])
      && (forall i :: 0 <= i < |kids| ==> kids[i].Valid() && View(kids[i].db) == views[i])
      && Disjoint(views)
    }

    ghost function Cursors(): (cs: seq<Cursor>)
      reads this, kids
      ensures |cs| == |kids|
    {
      seq(|kids|, i requires 0 <= i < |kids| reads this, kids => kids[i].Cursor())
    }

    ghost function Cursor(): Cursor
      reads this, kids
    {
      At(Cursors(), current)
    }

    /** Every child stands at its own first key from key() on when moving
        forward, and at its own last key up to key() when moving backward. */
    ghost predicate Valid()
      reads this, kids
    {
      && Sane()
      && -1 <= current < |kids|
      && (current >= 0 ==>
            && kids[current].valid
            && match direction
               case Forward => AllFirstFrom(views, kids[current].savedKey, Cursors())
               case Reverse => AllLastUpTo(views, kids[current].savedKey, Cursors()))
    }

    method FindSmallest()
      requires Sane()
      modifies this`current
      ensures IsSmallest(Cursors(), current)
      ensures forall j :: 0 <= j < current && kids[j].valid ==> kids[current].savedKey < kids[j].savedKey
    {
      hide DBIter.Valid, View;
      var smallest := -1;
      for i := 0 to |kids|
        invariant -1 <= smallest < i
        invariant smallest == -1 ==> forall j :: 0 <= j < i ==> !kids[j].valid
        invariant smallest >= 0 ==>
                    && kids[smallest].valid
                    && (forall j :: 0 <= j < i && kids[j].valid ==> kids[smallest].savedKey <= kids[j].savedKey)
                    && forall j :: 0 <= j < smallest && kids[j].valid ==> kids[smallest].savedKey < kids[j].savedKey
      {
        if kids[i].valid {
          if smallest == -1 {
            smallest := i;
          } else if kids[i].savedKey < kids[smallest].savedKey {
            smallest := i;
          }
        }
      }
      current := smallest;
    }

    method FindLargest()
      requires Sane()
      modifies this`current
      ensures IsLargest(Cursors(), current)
      ensures current >= 0 ==> forall j :: current < j < |kids| && kids[j].valid ==> kids[j].savedKey < kids[current].savedKey
    {
      hide DBIter.Valid, View;
      var largest := -1;
      for i := |kids| downto 0
        invariant largest == -1 || i <= largest < |kids|
        invariant largest == -1 ==> forall j :: i <= j < |kids| ==> !kids[j].valid
        invariant largest >= 0 ==>
                    && kids[largest].valid
                    && (forall j :: i <= j < |kids| && kids[j].valid ==> kids[j].savedKey <= kids[largest].savedKey)
                    && forall j :: largest < j < |kids| && kids[j].valid ==> kids[j].savedKey < kids[largest].savedKey
      {
        if kids[i].valid {
          if largest == -1 {
            largest := i;
          } else if kids[i].savedKey > kids[largest].savedKey {
            largest := i;
          }
        }
      }
      current := largest;
    }

    constructor (kids: seq<DBIter>)
      requires forall i, j :: 0 <= i < j < |kids| ==> kids[i] != kids[j]
      requires forall i :: 0 <= i < |kids| ==> kids[i].Valid() && !kids[i].valid
      requires Disjoint(Views(kids))
      ensures Valid() && Cursor() == None
      ensures this.kids == kids && views == Views(kids)
    {
      this.kids := kids;
      this.views := Views(kids);
      direction := Forward;
      current := -1;
      new;
      FindSmallest();
    }

    method Seek(target: UserKey)
      requires Valid()
      modifies this, kids
      ensures Valid() && Cursor() == FirstFrom(Union(views), target)
    {
      hide DBIter.Valid, View, FirstFrom;
      for i := 0 to |kids|
        invariant Sane()
        invariant forall j :: 0 <= j < i ==> kids[j].Cursor() == FirstFrom(views[j], target)
      {
        kids[i].Seek(target);
      }
      StartForward(target);
    }

    method SeekToFirst()
      requires Valid()
      modifies this, kids
      ensures Valid() && Cursor() == First(Union(views))
    {
      hide DBIter.Valid, View, FirstFrom, First;
      for i := 0 to |kids|
        invariant Sane()
        invariant forall j :: 0 <= j < i ==> kids[j].Cursor() == First(views[j])
      {
        kids[i].SeekToFirst();
      }
      ghost var t := LowestOf(views);
      StartForward(t);
    }

    method SeekToLast()
      requires Valid()
      modifies this, kids
      ensures Valid() && Cursor() == Last(Union(views))
    {
      hide DBIter.Valid, View, LastUpTo, Last;
      for i := 0 to |kids|
        invariant Sane()
        invariant forall j :: 0 <= j < i ==> kids[j].Cursor() == Last(views[j])
      {
        kids[i].SeekToLast();
      }
      ghost var t := HighestOf(views);
      StartBackward(t);
    }

    /** With every child at its first key from t on, the smallest is current. */
    method StartForward(ghost t: UserKey)
      requires Sane() && AllFirstFrom(views, t, Cursors())
      modifies this
      ensures Valid() && Cursor() == FirstFrom(Union(views), t)
    {
      hide DBIter.Valid, View, FirstFrom, Union, Disjoint;
      FindSmallest();
      SmallestIsFirst(views, t, Cursors(), current);
      direction := Forward;
      ghost var cs := Cursors();
      if current >= 0 {
        forall i | 0 <= i < |kids|
          ensures cs[i] == FirstFrom(views[i], kids[current].savedKey)
        {
          LaterStart(views[i], t, cs[current].value);
        }
      }
    }

    method StartBackward(ghost t: UserKey)
      requires Sane() && AllLastUpTo(views, t, Cursors())
      modifies this
      ensures Valid() && Cursor() == LastUpTo(Union(views), t)
    {
      hide DBIter.Valid, View, LastUpTo, Union, Disjoint;
      FindLargest();
      LargestIsLast(views, t, Cursors(), current);
      direction := Reverse;
      ghost var cs := Cursors();
      if current >= 0 {
        forall i | 0 <= i < |kids|
          ensures cs[i] == LastUpTo(views[i], kids[current].savedKey)
        {
          EarlierEnd(views[i], t, cs[current].value);
        }
      }
    }

    method Next()
      requires Valid() && current >= 0
      modifies this, kids
      ensures Valid() && Cursor() == FirstFrom(Union(views), old(Key()) + 1)
    {
      hide DBIter.Valid, View, FirstFrom, LastUpTo, Union, Disjoint;
      var key := kids[current].savedKey;
      if direction != Forward {
        TurnForward(key);
        direction := Forward;
      } else {
        OthersStandAfter(key);
      }
      kids[current].Next();
      StartForward(key + 1);
    }

    method Prev()
      requires Valid() && current >= 0
      modifies this, kids
      ensures Valid() && Cursor() == LastUpTo(Union(views), old(Key()) - 1)
    {
      hide DBIter.Valid, View, FirstFrom, LastUpTo, Union, Disjoint;
      var key := kids[current].savedKey;
      if direction != Reverse {
        TurnBackward(key);
        direction := Reverse;
      } else {
        OthersStandBefore(key);
      }
      kids[current].Prev();
      StartBackward(key - 1);
    }

    /** The key at the current child is in no other shard. */
    lemma OtherShardLacks(key: UserKey, i: nat)
      requires Valid() && current >= 0 && key == kids[current].savedKey
      requires i < |kids| && i != current
      ensures key !in views[i]
    {
      ViewHasWhatShows(kids[current].db, key);
      assert key in views[current];
    }

    /** Going forward, the other children stand after the current key already. */
    lemma OthersStandAfter(key: UserKey)
      requires Valid() && current >= 0 && direction == Forward && key == kids[current].savedKey
      ensures forall i :: 0 <= i < |kids| && i != current ==> kids[i].Cursor() == FirstFrom(views[i], key + 1)
    {
      hide DBIter.Valid, View, FirstFrom, LastUpTo, Union, Disjoint;
      forall i | 0 <= i < |kids| && i != current
        ensures kids[i].Cursor() == FirstFrom(views[i], key + 1)
      {
        OtherShardLacks(key, i);
        AbsentKey(views[i], key);
      }
    }

    /** Going backward, they stand before it. */
    lemma OthersStandBefore(key: UserKey)
      requires Valid() && current >= 0 && direction == Reverse && key == kids[current].savedKey
      ensures forall i :: 0 <= i < |kids| && i != current ==> kids[i].Cursor() == LastUpTo(views[i], key - 1)
    {
      hide DBIter.Valid, View, FirstFrom, LastUpTo, Union, Disjoint;
      forall i | 0 <= i < |kids| && i != current
        ensures kids[i].Cursor() == LastUpTo(views[i], key - 1)
      {
        OtherShardLacks(key, i);
        AbsentKey(views[i], key);
      }
    }

    /** Next's loop: every other child moves to its first key after key(). */
    method TurnForward(key: UserKey)
      requires Sane() && 0 <= current < |kids|
      requires kids[current].valid && kids[current].savedKey == key
      modifies kids
      ensures Sane()
      ensures kids[current].valid && kids[current].savedKey == key
      ensures forall i :: 0 <= i < |kids| && i != current ==> kids[i].Cursor() == FirstFrom(views[i], key + 1)
    {
      hide DBIter.Valid, View, FirstFrom;
      for i := 0 to |kids|
        invariant Sane()
        invariant kids[current].valid && kids[current].savedKey == key
        invariant forall j :: 0 <= j < i && j != current ==> kids[j].Cursor() == FirstFrom(views[j], key + 1)
      {
        if i != current {
          kids[i].Seek(key);
          if kids[i].valid && kids[i].savedKey == key {
            kids[i].Next();
          } else {
            if key !in views[i] { AbsentKey(views[i], key); }
          }
        }
      }
    }

    /** Prev's loop: every other child moves to its last key before key(). */
    method TurnBackward(key: UserKey)
      requires Sane() && 0 <= current < |kids|
      requires kids[current].valid && kids[current].savedKey == key
      modifies kids
      ensures Sane()
      ensures kids[current].valid && kids[current].savedKey == key
      ensures forall i :: 0 <= i < |kids| && i != current ==> kids[i].Cursor() == LastUpTo(views[i], key - 1)
    {
      hide DBIter.Valid, View, FirstFrom, LastUpTo, Last;
      for i := 0 to |kids|
        invariant Sane()
        invariant kids[current].valid && kids[current].savedKey == key
        invariant forall j :: 0 <= j < i && j != current ==> kids[j].Cursor() == LastUpTo(views[j], key - 1)
      {
        if i != current {
          kids[i].Seek(key);
          StepBack(views[i], key);
          if kids[i].valid {
            kids[i].Prev();
          } else {
            kids[i].SeekToLast();
          }
        }
      }
    }

    method Do(op: Op)
      requires Valid()
      modifies this, kids
      ensures Valid() && Cursor() == MergedMove(Union(views), old(Cursor()), op)
    {
      hide Merger.Valid, DBIter.Valid, View, Union, Disjoint, FirstFrom, LastUpTo, First, Last;
      match op
      case Seek(t) => Seek(t);
      case SeekForPrev(_) =>
      case SeekToFirst => SeekToFirst();
      case SeekToLast => SeekToLast();
      case Next => if current >= 0 { Next(); }
      case Prev => if current >= 0 { Prev(); }
    }

    /** key() */
    function Key(): (k: UserKey)
      requires Valid() && current >= 0
      reads this, kids
      ensures Cursor() == Some(k)
    {
      kids[current].savedKey
    }

    lemma OffTheEnd()
      requires current < 0
      ensures Cursor() == None
    {
    }

    /** key() and value() */
    method Observe() returns (shown: Shown)
      requires Valid()
      ensures shown == Look(Union(views), Cursor())
    {
      if current < 0 {
        return None;
      }
      shown := kids[current].Observe();
      ViewHasWhatShows(kids[current].db, kids[current].savedKey);
      UnionAt(views, current, kids[current].savedKey);
    }
  }

  ghost function Views(kids: seq<DBIter>): (views: seq<map<UserKey, Value>>)
    requires forall i :: 0 <= i < |kids| ==> kids[i].Valid()
    reads kids
    ensures |views| == |kids|
  {
    seq(|kids|, i requires 0 <= i < |kids| && kids[i].Valid() reads kids => View(kids[i].db))
  }

  /** One fresh iterator per shard. */
  method OpenShards(dbs: seq<Db>, maxSkip: nat) returns (kids: seq<DBIter>)
    requires forall i :: 0 <= i < |dbs| ==> WellFormed(dbs[i].run)
    ensures |kids| == |dbs|
    ensures forall i :: 0 <= i < |dbs| ==> fresh(kids[i]) && kids[i].Valid() && !kids[i].valid && kids[i].db == dbs[i]
    ensures forall i, j :: 0 <= i < j < |dbs| ==> kids[i] != kids[j]
  {
    hide WellFormed, DBIter.Valid;
    kids := [];
    for i := 0 to |dbs|
      invariant |kids| == i
      invariant forall j :: 0 <= j < i ==> fresh(kids[j]) && kids[j].Valid() && !kids[j].valid && kids[j].db == dbs[j]
      invariant forall j, k :: 0 <= j < k < i ==> kids[j] != kids[k]
    {
      var kid := new DBIter(dbs[i], maxSkip);
      kids := kids + [kid];
    }
  }

  /** One move of the merged iterator: SeekForPrev has an empty body in the source. */
  ghost function MergedMove(m: map<UserKey, Value>, c: Cursor, op: Op): Cursor {
    if op.SeekForPrev? then c else Move(m, c, op)
  }

  /** What a run of operations shows, one entry per operation. */
  ghost function MergedTrace(m: map<UserKey, Value>, c: Cursor, ops: seq<Op>): seq<Shown>
    decreases |ops|
  {
    if ops == [] then []
    else
      var c' := MergedMove(m, c, ops[0]);
      [Look(m, c')] + MergedTrace(m, c', ops[1..])
  }

  /** Without SeekForPrev that is what the map cursor shows. */
  lemma {:induction false} MergedTraceIsTrace(m: map<UserKey, Value>, c: Cursor, ops: seq<Op>)
    requires forall i :: 0 <= i < |ops| ==> !ops[i].SeekForPrev?
    ensures MergedTrace(m, c, ops) == Trace(m, c, ops)
    decreases |ops|
  {
    hide Move, Look;
    if ops != [] {
      MergedTraceIsTrace(m, MergedMove(m, c, ops[0]), ops[1..]);
    }
  }

  method Drive(it: Merger, ops: seq<Op>) returns (shown: seq<Shown>)
    requires it.Valid()
    modifies it, it.kids
    ensures shown == MergedTrace(Union(it.views), old(it.Cursor()), ops)
  {
    hide Merger.Valid, Merger.Cursor, Move, MergedMove, Look;
    shown := [];
    for i := 0 to |ops|
      invariant it.Valid()
      invariant MergedTrace(Union(it.views), old(it.Cursor()), ops) == shown + MergedTrace(Union(it.views), it.Cursor(), ops[i..])
    {
      it.Do(ops[i]);
      var s := it.Observe();
      assert ops[i..][1..] == ops[i + 1..];
      shown := shown + [s];
    }
  }

  /** A merged iterator over the iterators of the shards shows, for every run of
      operations, what a cursor over the union of the snapshots shows. */
  method Run(dbs: seq<Db>, maxSkip: nat, ops: seq<Op>, ghost views: seq<map<UserKey, Value>>) returns (shown: seq<Shown>)
    requires forall i :: 0 <= i < |dbs| ==> WellFormed(dbs[i].run)
    requires |views| == |dbs|
    requires forall i :: 0 <= i < |dbs| ==> Ordered(dbs[i].run) && views[i] == View(dbs[i])
    requires Disjoint(views)
    ensures shown == MergedTrace(Union(views), None, ops)
  {
    hide View, WellFormed, Ordered, Union, MergedTrace, Disjoint, DBIter.Valid;
    var kids := OpenShards(dbs, maxSkip);
    assert Views(kids) == views;
    var it := new Merger(kids);
    shown := Drive(it, ops);
  }
}
