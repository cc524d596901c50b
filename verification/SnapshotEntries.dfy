/** What the visible map is, read off the entries: the newest visible entry of a key
    decides, and merge operands go down to the first entry that is none. */
module SnapshotEntries {
  import opened MapCursor
  import opened InternalKeys
  import opened SnapshotView

  /** Entry p is the visible entry of key k with the largest sequence number. */
  ghost predicate IsNewest(db: Db, k: UserKey, p: nat) {
    && p < |db.run| && db.run[p].key == k && db.run[p].seqno <= db.snapshot
    && forall j :: 0 <= j < |db.run| && db.run[j].key == k && db.run[j].seqno <= db.snapshot ==> db.run[j].seqno <= db.run[p].seqno
  }

  /** Entry i is a merge operand of key k that no range tombstone hides. */
  predicate IsOperand(db: Db, k: UserKey, i: nat) {
    i < |db.run| && db.run[i].key == k && db.run[i].kind == Merge && !db.covered(k, db.run[i].seqno)
  }

  /** The operands from p on end before q. */
  ghost predicate EndAt(db: Db, k: UserKey, p: nat, q: nat) {
    p < q && (forall i :: p <= i < q ==> IsOperand(db, k, i)) && !IsOperand(db, k, q)
  }

  /** The values of run[p..q], the oldest first. */
  function OldestFirst(run: seq<Entry>, p: nat, q: nat): seq<Value>
    requires p <= q <= |run|
  {
    seq(q - p, i requires 0 <= i < q - p => run[q - 1 - i].val)
  }

  /** What the operands are merged into. */
  function BaseAt(db: Db, k: UserKey, q: nat): Option<Value> {
    if q < |db.run| && db.run[q].key == k && db.run[q].kind == Put && !db.covered(k, db.run[q].seqno) then Some(db.run[q].val) else None
  }

  lemma NewestIsFirst(db: Db, k: UserKey, p: nat)
    requires Sound(db) && IsNewest(db, k, p)
    ensures p == VisibleStart(db.run, k, db.snapshot) < KeyStart(db.run, k + 1)
  {
    hide KeyStart, VisibleStart;
    VisibleStartSplits(db.run, k, db.snapshot);
    KeyStartSplits(db.run, k);
    KeyStartSplits(db.run, k + 1);
    var first := VisibleStart(db.run, k, db.snapshot);
    assert first <= p && db.run[first].key == k && db.run[first].seqno <= db.snapshot;
  }

  lemma FirstIsNewest(db: Db, k: UserKey)
    requires Sound(db)
    ensures IsNewest(db, k, VisibleStart(db.run, k, db.snapshot)) || StateAt(db, k) == Absent
  {
    hide KeyStart, VisibleStart;
    VisibleStartSplits(db.run, k, db.snapshot);
    KeyStartSplits(db.run, k);
    KeyStartSplits(db.run, k + 1);
  }

  /** Replaying operands on top of what is under them. */
  lemma {:induction false} ReplayOperands(db: Db, k: UserKey, p: nat, q: nat, next: nat)
    requires p < q <= next <= |db.run| && (forall i :: p <= i < q ==> IsOperand(db, k, i)) && !IsOperand(db, k, q)
    requires forall i :: p <= i < next ==> db.run[i].key == k
    requires next < |db.run| ==> db.run[next].key != k
    ensures Replay(db, p, next) == Merged(BaseAt(db, k, q), OldestFirst(db.run, p, q))
    decreases q - p
  {
    assert IsOperand(db, k, p);
    if p + 1 < q {
      ReplayOperands(db, k, p + 1, q, next);
      assert OldestFirst(db.run, p, q) == OldestFirst(db.run, p + 1, q) + [db.run[p].val];
    } else {
      assert OldestFirst(db.run, p, q) == [db.run[p].val];
    }
  }

  predicate Within(db: Db, k: UserKey) {
    (db.lower.Some? ==> db.lower.value <= k) && (db.upper.Some? ==> k < db.upper.value)
  }

  /** The visible map has a key if and only if the key is within the bounds, has a
      visible entry, and its newest one is neither a tombstone nor hidden by a range
      tombstone. */
  lemma ViewHas(db: Db, k: UserKey)
    requires Sound(db)
    ensures k in View(db) <==>
              && Within(db, k)
              && exists p: nat :: IsNewest(db, k, p) && (db.run[p].kind == Put || db.run[p].kind == Merge) && !db.covered(k, db.run[p].seqno)
  {
    ViewHasWhatShows(db, k);
    if exists p: nat :: IsNewest(db, k, p) {
      var p: nat :| IsNewest(db, k, p);
      NewestIsFirst(db, k, p);
      hide KeyStart, VisibleStart, Ordered;
      forall p': nat | IsNewest(db, k, p') ensures p' == p {
        NewestIsFirst(db, k, p');
      }
    } else {
      FirstIsNewest(db, k);
    }
  }

  /** Its value is that of the newest entry, if that is a put. */
  lemma ViewOfPut(db: Db, k: UserKey, p: nat)
    requires Sound(db) && Within(db, k) && IsNewest(db, k, p) && db.run[p].kind == Put && !db.covered(k, db.run[p].seqno)
    ensures k in View(db) && View(db)[k] == db.run[p].val
  {
    ViewHasWhatShows(db, k);
    NewestIsFirst(db, k, p);
    hide KeyStart, VisibleStart, Ordered;
  }

  /** If it is an operand: the merge of the operands from there down to the first entry
      that is none, on top of that entry if it is a put. */
  lemma ViewOfMerge(db: Db, k: UserKey, p: nat, q: nat)
    requires Sound(db) && Within(db, k) && IsNewest(db, k, p) && EndAt(db, k, p, q)
    ensures q <= |db.run| && k in View(db)
    ensures View(db)[k] == db.fullMerge(k, BaseAt(db, k, q), OldestFirst(db.run, p, q))
  {
    ViewHasWhatShows(db, k);
    NewestIsFirst(db, k, p);
    var next := KeyStart(db.run, k + 1);
    KeyStartSplits(db.run, k + 1);
    VisibleStartSplits(db.run, k, db.snapshot);
    hide KeyStart, VisibleStart, Ordered;
    assert IsOperand(db, k, q - 1);
    ReplayOperands(db, k, p, q, next);
  }

  /** The operands of a newest entry that is one do end somewhere. */
  lemma {:induction false} OperandsEnd(db: Db, k: UserKey, p: nat) returns (q: nat)
    requires IsOperand(db, k, p)
    ensures EndAt(db, k, p, q)
    decreases |db.run| - p
  {
    if IsOperand(db, k, p + 1) {
      q := OperandsEnd(db, k, p + 1);
    } else {
      q := p + 1;
    }
  }
}
