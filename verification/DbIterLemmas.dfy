/** Facts about a forward or backward scan of a run, independent of the fields
    of the iterator. */
module DbIterLemmas {
  import opened MapCursor
  import opened InternalKeys
  import opened SnapshotView

  // ---- scanning forward ----------------------------------------------------

  /** A forward scan for the first key at or after `from` stands at entry p:
      no earlier key shows, and of the key at p only entries that are too new
      have been passed. */
  ghost predicate Frontier(db: Db, from: UserKey, p: int)
    requires Sound(db)
  {
    && 0 <= p < |db.run|
    && from <= db.run[p].key
    && NoneShown(db, from, db.run[p].key)
    && p <= VisibleStart(db.run, db.run[p].key, db.snapshot)
  }

  /** The same scan while it is still leaving key `saved` behind. */
  ghost predicate Leaving(db: Db, from: UserKey, saved: UserKey, p: int)
    requires Sound(db)
  {
    && KeyStart(db.run, saved) <= p <= KeyStart(db.run, saved + 1)
    && from <= saved + 1
    && NoneShown(db, from, saved + 1)
  }

  /** The state of a forward scan, also when it has run off the end. */
  ghost predicate Scanning(db: Db, from: UserKey, skipping: bool, saved: UserKey, p: int)
    requires Sound(db)
  {
    if skipping then Leaving(db, from, saved, p)
    else if p == |db.run| then NoneShownFrom(db, from)
    else Frontier(db, from, p)
  }

  /** The entry before p ended key `saved`, so p is past it. */
  ghost predicate Left(db: Db, saved: UserKey, p: int) {
    p == KeyStart(db.run, saved + 1)
  }

  /** Between two keys nothing shows, so a scan past one key stands at the
      frontier of the next. */
  lemma NextKeyIsFrontier(db: Db, from: UserKey, k: UserKey, q: int)
    requires Sound(db)
    requires q == KeyStart(db.run, k + 1) && from <= k + 1
    requires NoneShown(db, from, k + 1)
    ensures Scanning(db, from, false, k, q)
  {
    KeyStartSplits(db.run, k + 1);
    forall j | from <= j && (q < |db.run| ==> j < db.run[q].key)
      ensures !Shows(db, j)
    {
      if k < j { GapShowsNothing(db, q - 1, j); }
    }
    if q < |db.run| {
      KeyStartIs(db.run, db.run[q].key, q);
      VisibleStartSplits(db.run, db.run[q].key, db.snapshot);
    }
  }

  /** Passing entries that are too new keeps the frontier, one entry at a time
      or in one jump to the snapshot. */
  lemma FrontierAdvances(db: Db, from: UserKey, p: int, q: int)
    requires Sound(db) && Frontier(db, from, p)
    requires p <= q <= VisibleStart(db.run, db.run[p].key, db.snapshot)
    ensures Scanning(db, from, false, db.run[p].key, q)
  {
    hide KeyStart, VisibleStart, Ordered;
    var k := db.run[p].key;
    VisibleStartSplits(db.run, k, db.snapshot);
    KeyStartSplits(db.run, k);
    KeyStartSplits(db.run, k + 1);
    if q == KeyStart(db.run, k + 1) {
      assert StateAt(db, k) == Absent;
      NextKeyIsFrontier(db, from, k, q);
    } else {
      assert db.run[q].key == k;
    }
  }

  /** An entry that is too new is passed by one step or by a jump. */
  lemma TooNew(db: Db, from: UserKey, p: int)
    requires Sound(db) && Frontier(db, from, p) && !db.Visible(db.run[p])
    ensures Scanning(db, from, false, db.run[p].key, p + 1)
    ensures p < VisibleStart(db.run, db.run[p].key, db.snapshot)
    ensures Scanning(db, from, false, db.run[p].key, VisibleStart(db.run, db.run[p].key, db.snapshot))
  {
    var k := db.run[p].key;
    VisibleStartSplits(db.run, k, db.snapshot);
    KeyStartSplits(db.run, k);
    KeyStartSplits(db.run, k + 1);
    FrontierAdvances(db, from, p, p + 1);
    FrontierAdvances(db, from, p, VisibleStart(db.run, k, db.snapshot));
  }

  /** A scan that leaves a key behind either sees that key or is done with it. */
  lemma LeavingStep(db: Db, from: UserKey, saved: UserKey, p: int)
    requires Sound(db) && Leaving(db, from, saved, p) && 0 <= p < |db.run|
    ensures saved <= db.run[p].key
    ensures saved == db.run[p].key ==> Leaving(db, from, saved, p + 1) && !Left(db, saved, p)
    ensures saved == db.run[p].key && db.run[p].seqno == 0 ==> Left(db, saved, p + 1)
    ensures saved < db.run[p].key ==> Scanning(db, from, false, saved, p)
  {
    KeyStartSplits(db.run, saved);
    KeyStartSplits(db.run, saved + 1);
    if saved < db.run[p].key {
      NextKeyIsFrontier(db, from, saved, p);
    } else {
      assert p + 1 < |db.run| && db.run[p + 1].key == saved ==> db.run[p].seqno > db.run[p + 1].seqno;
    }
  }

  /** Seeking past a key does not go back and does not miss the next one. */
  lemma LeavingJump(db: Db, from: UserKey, saved: UserKey, p: int)
    requires Sound(db) && Leaving(db, from, saved, p) && 0 <= p < |db.run| && db.run[p].key == saved
    ensures var q := SeekIndex(db.run, InternalKey(saved, 0, TypeCode(Deletion)));
            p <= q && Leaving(db, from, saved, q)
  {
    SeekPastKey(db.run, saved);
    KeyStartSplits(db.run, saved + 1);
  }

  /** The newest visible entry of a key is a tombstone: the key does not show. */
  lemma TombstoneAtFrontier(db: Db, from: UserKey, p: int)
    requires Sound(db) && Frontier(db, from, p)
    requires db.Visible(db.run[p]) && db.Tombstone(db.run[p])
    ensures Leaving(db, from, db.run[p].key, p + 1)
    ensures db.run[p].seqno == 0 ==> Left(db, db.run[p].key, p + 1)
  {
    var k := db.run[p].key;
    VisibleStartSplits(db.run, k, db.snapshot);
    KeyStartSplits(db.run, k);
    KeyStartSplits(db.run, k + 1);
    assert StateAt(db, k) == Apply(db, db.run[p], Replay(db, p + 1, KeyStart(db.run, k + 1)));
    assert p + 1 < |db.run| && db.run[p + 1].key == k ==> db.run[p].seqno > db.run[p + 1].seqno;
  }

  /** p is the newest visible entry of key k, and it is a live one. */
  ghost predicate LiveEntry(db: Db, k: UserKey, p: int)
    requires Sound(db)
  {
    && p == VisibleStart(db.run, k, db.snapshot)
    && 0 <= p < KeyStart(db.run, k + 1)
    && db.run[p].key == k && !db.Tombstone(db.run[p])
    && StateAt(db, k) == Apply(db, db.run[p], Replay(db, p + 1, KeyStart(db.run, k + 1)))
  }

  lemma LiveAtFrontier(db: Db, from: UserKey, p: int)
    requires Sound(db) && Frontier(db, from, p)
    requires db.Visible(db.run[p]) && !db.Tombstone(db.run[p])
    ensures LiveEntry(db, db.run[p].key, p)
    ensures StateAt(db, db.run[p].key) != Absent
  {
    var k := db.run[p].key;
    VisibleStartSplits(db.run, k, db.snapshot);
    KeyStartSplits(db.run, k);
    KeyStartSplits(db.run, k + 1);
  }

  /** Everything one iteration of the forward loop needs to know about the
      entry at p, for each of its branches. */
  lemma ScanStep(db: Db, from: UserKey, skipping: bool, saved: UserKey, p: int)
    requires Sound(db) && Scanning(db, from, skipping, saved, p) && 0 <= p < |db.run|
    ensures skipping ==> saved <= db.run[p].key
    ensures skipping && saved == db.run[p].key ==>
              && !Left(db, saved, p)
              && Scanning(db, from, true, saved, p + 1)
              && (db.run[p].seqno == 0 ==> Left(db, saved, p + 1))
              && p <= SeekIndex(db.run, InternalKey(saved, 0, TypeCode(Deletion)))
              && Scanning(db, from, true, saved, SeekIndex(db.run, InternalKey(saved, 0, TypeCode(Deletion))))
    ensures !(skipping && saved == db.run[p].key) ==> Frontier(db, from, p)
    ensures Frontier(db, from, p) && !db.Visible(db.run[p]) ==>
              var k := db.run[p].key;
              && Scanning(db, from, false, k, p + 1)
              && p < SeekIndex(db.run, InternalKey(k, db.snapshot, TYPE_FOR_SEEK))
              && Scanning(db, from, false, k, SeekIndex(db.run, InternalKey(k, db.snapshot, TYPE_FOR_SEEK)))
    ensures Frontier(db, from, p) && db.Visible(db.run[p]) && db.Tombstone(db.run[p]) ==>
              var k := db.run[p].key;
              && Scanning(db, from, true, k, p + 1)
              && (db.run[p].seqno == 0 ==> Left(db, k, p + 1))
  {
    hide Frontier, Leaving, Left;
    if skipping { LeavingStep(db, from, saved, p); }
    if skipping && saved == db.run[p].key { LeavingJump(db, from, saved, p); }
    if Frontier(db, from, p) {
      if !db.Visible(db.run[p]) {
        TooNew(db, from, p);
      } else if db.Tombstone(db.run[p]) {
        TombstoneAtFrontier(db, from, p);
      }
    }
  }

  /** Stopping at the upper bound loses nothing. */
  lemma UpperBoundStops(db: Db, from: UserKey, skipping: bool, saved: UserKey, p: int)
    requires Sound(db) && Scanning(db, from, skipping, saved, p)
    requires 0 <= p < |db.run| && db.upper.Some? && db.upper.value <= db.run[p].key
    ensures NoneShownFrom(db, from)
  {
    if skipping { LeavingStep(db, from, saved, p); }
  }

  lemma EndOfRunStops(db: Db, from: UserKey, skipping: bool, saved: UserKey)
    requires Sound(db) && Scanning(db, from, skipping, saved, |db.run|)
    ensures NoneShownFrom(db, from)
  {
    if skipping { NextKeyIsFrontier(db, from, saved, |db.run|); }
  }

  // ---- merge operands ------------------------------------------------------

  /** One past the last entry of run[i..j] that a merge starting at i uses: a
      put or a tombstone ends it, and is itself used up. */
  ghost function AfterOperands(db: Db, i: nat, j: nat): (p: nat)
    requires i <= j <= |db.run|
    ensures i <= p <= j
    decreases j - i
  {
    if i == j then j
    else if db.Tombstone(db.run[i]) || db.run[i].kind == Put then i + 1
    else AfterOperands(db, i + 1, j)
  }

  /** Within the entries from the newest visible one on, the end of the key is
      where the user key changes. */
  lemma KeyEndsWhereKeyChanges(db: Db, k: UserKey, p: int)
    requires Sound(db)
    requires VisibleStart(db.run, k, db.snapshot) <= p <= KeyStart(db.run, k + 1)
    ensures p < |db.run| ==> (db.run[p].key == k <==> p < KeyStart(db.run, k + 1))
  {
    VisibleStartSplits(db.run, k, db.snapshot);
    KeyStartSplits(db.run, k + 1);
  }

  lemma PushPush(s: KeyState, a: seq<Value>, b: seq<Value>)
    ensures Push(Push(s, a), b) == Push(s, a + b)
  {
    if s.Merged? { assert (s.operands + a) + b == s.operands + (a + b); }
  }

  /** What the entry at p does to a merge that has collected `ops` from the newer
      entries: it ends the merge, as the end of the key does, or adds an operand. */
  lemma OneOlder(db: Db, p: nat, next: nat, ops: seq<Value>)
    requires p <= next <= |db.run|
    ensures p == next ==> Push(Replay(db, p, next), ops) == Merged(None, ops) && AfterOperands(db, p, next) == p
    ensures p < next && db.Tombstone(db.run[p]) ==>
              Push(Replay(db, p, next), ops) == Merged(None, ops) && AfterOperands(db, p, next) == p + 1
    ensures p < next && !db.Tombstone(db.run[p]) && db.run[p].kind == Put ==>
              Push(Replay(db, p, next), ops) == Merged(Some(db.run[p].val), ops) && AfterOperands(db, p, next) == p + 1
    ensures p < next && !db.Tombstone(db.run[p]) && db.run[p].kind == Merge ==>
              && Push(Replay(db, p, next), ops) == Push(Replay(db, p + 1, next), [db.run[p].val] + ops)
              && AfterOperands(db, p, next) == AfterOperands(db, p + 1, next)
  {
    if p < next {
      PushPush(Replay(db, p + 1, next), [db.run[p].val], ops);
    }
  }

  /** The merge a live operand starts. */
  lemma StartsMerge(db: Db, k: UserKey, p: int)
    requires Sound(db) && LiveEntry(db, k, p) && db.run[p].kind == Merge
    ensures p < KeyStart(db.run, k + 1) <= |db.run|
    ensures StateAt(db, k) == Push(Replay(db, p + 1, KeyStart(db.run, k + 1)), [db.run[p].val])
    ensures AfterOperands(db, p, KeyStart(db.run, k + 1)) == AfterOperands(db, p + 1, KeyStart(db.run, k + 1))
  {
    hide StateAt, KeyStart, VisibleStart, Ordered;
  }

  // ---- scanning backward ---------------------------------------------------

  /** A backward scan for the last key at or before `to` stands at entry p: p
      is the oldest entry of its key, and no later key shows. */
  ghost predicate Backward(db: Db, to: UserKey, p: int)
    requires Sound(db)
  {
    && -1 <= p < |db.run|
    && if p == -1 then NoneShownUpTo(db, to)
       else
         && db.run[p].key <= to
         && p + 1 == KeyStart(db.run, db.run[p].key + 1)
         && NoneShown(db, db.run[p].key + 1, to + 1)
  }

  lemma BackwardStarts(db: Db, to: UserKey)
    requires Sound(db)
    ensures Backward(db, to, KeyStart(db.run, to + 1) - 1)
  {
    var p := KeyStart(db.run, to + 1) - 1;
    KeyStartSplits(db.run, to + 1);
    if 0 <= p { KeyStartIs(db.run, db.run[p].key + 1, p + 1); }
    forall k | k <= to && (0 <= p ==> db.run[p].key < k)
      ensures !Shows(db, k)
    {
      GapShowsNothing(db, p, k);
    }
  }

  /** A key that does not show is left behind. */
  lemma BackwardContinues(db: Db, to: UserKey, p: int)
    requires Sound(db) && Backward(db, to, p)
    requires 0 <= p && !Shows(db, db.run[p].key)
    ensures Backward(db, to, KeyStart(db.run, db.run[p].key) - 1)
    ensures KeyStart(db.run, db.run[p].key) <= p
  {
    hide Shows, StateAt, KeyStart, VisibleStart;
    KeyStartSplits(db.run, db.run[p].key);
    BackwardStarts(db, db.run[p].key - 1);
  }

  /** Stopping at the lower bound loses nothing. */
  lemma LowerBoundStops(db: Db, to: UserKey, p: int)
    requires Sound(db) && Backward(db, to, p)
    requires 0 <= p && db.lower.Some? && db.run[p].key < db.lower.value
    ensures NoneShownUpTo(db, to)
  {
  }

  lemma StateIsReplay(db: Db, k: UserKey)
    requires Sound(db)
    ensures VisibleStart(db.run, k, db.snapshot) <= KeyStart(db.run, k + 1)
    ensures StateAt(db, k) == Replay(db, VisibleStart(db.run, k, db.snapshot), KeyStart(db.run, k + 1))
  {
    VisibleStartSplits(db.run, k, db.snapshot);
  }

  /** Where a seek to the snapshot and a seek to the start of a key land. */
  lemma SeeksLand(db: Db, k: UserKey)
    ensures SeekIndex(db.run, InternalKey(k, db.snapshot, TYPE_FOR_SEEK)) == VisibleStart(db.run, k, db.snapshot)
    ensures SeekIndex(db.run, InternalKey(k, MAX_SEQUENCE, TYPE_FOR_SEEK)) == KeyStart(db.run, k)
  {
  }

  /** The newest visible entry of a key that has one. */
  lemma NewestVisible(db: Db, k: UserKey)
    requires Sound(db)
    requires VisibleStart(db.run, k, db.snapshot) < KeyStart(db.run, k + 1)
    ensures var p := VisibleStart(db.run, k, db.snapshot);
            && KeyStart(db.run, k) <= p < |db.run|
            && db.run[p].key == k && db.Visible(db.run[p])
            && (!db.Tombstone(db.run[p]) ==> LiveEntry(db, k, p))
            && (db.Tombstone(db.run[p]) ==> StateAt(db, k) == Absent)
  {
    VisibleStartSplits(db.run, k, db.snapshot);
  }

  /** Going backward, the visible entries of a key end where an entry is too new
      or belongs to another key. */
  lemma SeenEndsWhereTooNew(db: Db, k: UserKey, p: int)
    requires Sound(db)
    requires VisibleStart(db.run, k, db.snapshot) - 1 <= p < KeyStart(db.run, k + 1)
    ensures 0 <= p ==> (db.Visible(db.run[p]) && db.run[p].key == k <==> VisibleStart(db.run, k, db.snapshot) <= p)
  {
    VisibleStartSplits(db.run, k, db.snapshot);
    KeyStartSplits(db.run, k);
  }

  // ---- the map cursor ------------------------------------------------------

  lemma CursorForward(db: Db, from: UserKey, c: Cursor)
    requires Sound(db)
    requires c.Some? ==> from <= c.value && Shows(db, c.value) && NoneShown(db, from, c.value)
    requires c.None? ==> NoneShownFrom(db, from)
    ensures FirstFrom(View(db), from) == c
  {
    forall k ensures k in View(db) <==> Shows(db, k) {
      ViewHasWhatShows(db, k);
    }
    assert IsFirstFrom(View(db), from, FirstFrom(View(db), from));
  }

  lemma CursorBackward(db: Db, to: UserKey, c: Cursor)
    requires Sound(db)
    requires c.Some? ==> c.value <= to && Shows(db, c.value) && NoneShown(db, c.value + 1, to + 1)
    requires c.None? ==> NoneShownUpTo(db, to)
    ensures LastUpTo(View(db), to) == c
  {
    forall k ensures k in View(db) <==> Shows(db, k) {
      ViewHasWhatShows(db, k);
    }
    assert IsLastUpTo(View(db), to, LastUpTo(View(db), to));
  }

  // ---- where the operations start ------------------------------------------

  /** Positions from which Next leaves key k behind: the start of its entries,
      and one past an entry, or a merge, that has been yielded. */
  lemma NextStartsLeaving(db: Db, k: UserKey)
    requires Sound(db)
    requires VisibleStart(db.run, k, db.snapshot) < KeyStart(db.run, k + 1)
    ensures Leaving(db, k + 1, k, KeyStart(db.run, k))
    ensures var first := VisibleStart(db.run, k, db.snapshot);
            var merge := AfterOperands(db, first, KeyStart(db.run, k + 1));
            && KeyStart(db.run, k) <= first < merge
            && Leaving(db, k + 1, k, first + 1)
            && Leaving(db, k + 1, k, merge)
            && (db.run[first].seqno == 0 ==> Left(db, k, first + 1) && Left(db, k, merge))
  {
    var first := VisibleStart(db.run, k, db.snapshot);
    VisibleStartSplits(db.run, k, db.snapshot);
    assert first + 1 < KeyStart(db.run, k + 1) ==> db.run[first].seqno > db.run[first + 1].seqno;
  }

  lemma SeekLandsAtFrontier(db: Db, from: UserKey)
    requires Sound(db)
    ensures Scanning(db, from, false, from, SeekIndex(db.run, InternalKey(from, db.snapshot, TYPE_FOR_SEEK)))
  {
    hide Ordered;
    VisibleStartSplits(db.run, from, db.snapshot);
    KeyStartSplits(db.run, from + 1);
    var p := VisibleStart(db.run, from, db.snapshot);
    if p == KeyStart(db.run, from + 1) {
      assert StateAt(db, from) == Absent;
      NextKeyIsFrontier(db, from, from, p);
    } else {
      assert db.run[p].key == from;
    }
  }

  lemma StartIsFrontier(db: Db)
    requires Sound(db) && 0 < |db.run|
    ensures Scanning(db, db.run[0].key, false, db.run[0].key, 0)
    ensures NoneShownUpTo(db, db.run[0].key - 1)
  {
    forall k | k < db.run[0].key ensures !Shows(db, k) {
      GapShowsNothing(db, -1, k);
    }
  }

  lemma EndIsBackward(db: Db)
    requires Sound(db) && 0 < |db.run|
    ensures Backward(db, db.run[|db.run| - 1].key, |db.run| - 1)
    ensures NoneShownFrom(db, db.run[|db.run| - 1].key + 1)
  {
    var last := |db.run| - 1;
    KeyStartIs(db.run, db.run[last].key + 1, |db.run|);
    forall k | db.run[last].key < k ensures !Shows(db, k) {
      GapShowsNothing(db, last, k);
    }
  }

  lemma EmptyRun(db: Db)
    requires Sound(db) && db.run == []
    ensures View(db) == map[]
  {
  }

  /** When nothing shows before `from`, the first key is the first from there. */
  lemma CursorFirst(db: Db, from: UserKey)
    requires Sound(db)
    requires NoneShownUpTo(db, from - 1)
    ensures First(View(db)) == FirstFrom(View(db), from)
  {
    hide View, StateAt;
    var m := View(db);
    forall k | k in m ensures from <= k {
      ViewHasWhatShows(db, k);
    }
    assert IsFirstFrom(m, from, FirstFrom(m, from));
  }

  lemma CursorLast(db: Db, to: UserKey)
    requires Sound(db)
    requires NoneShownFrom(db, to + 1)
    ensures Last(View(db)) == LastUpTo(View(db), to)
  {
    hide View, StateAt;
    var m := View(db);
    forall k | k in m ensures k <= to {
      ViewHasWhatShows(db, k);
    }
    assert IsLastUpTo(m, to, LastUpTo(m, to));
  }
}
