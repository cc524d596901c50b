/** The snapshot iterator (db/db_iter.cc, db/db_iter.h). */
module DbIter {
  import opened MapCursor
  import opened InternalKeys
  import opened SnapshotView
  import opened DbIterLemmas

  datatype Direction = Forward | Reverse

  /** The operand list of a merge. It is kept in the order of the last push
      direction and reversed when the other order is asked for. */
  datatype MergeContext = MergeContext(list: seq<Value>, reversed: bool) {

    function Clear(): MergeContext {
      MergeContext([], reversed)
    }

    function Turned(backward: bool): MergeContext {
      if reversed == backward then this else MergeContext(Backwards(list), backward)
    }

    /** Add an operand older than all others. */
    function PushOperand(v: Value): MergeContext {
      var c := Turned(true);
      MergeContext(c.list + [v], true)
    }

    /** Add an operand newer than all others. */
    function PushOperandBack(v: Value): MergeContext {
      var c := Turned(false);
      MergeContext(c.list + [v], false)
    }

    /** The operands from old to new. */
    function Operands(): seq<Value> {
      Turned(false).list
    }

    lemma ClearIsEmpty()
      ensures Clear().Operands() == []
    {
    }

    lemma PushOperandIsOldest(v: Value)
      ensures PushOperand(v).Operands() == [v] + Operands()
    {
      var c := Turned(true);
      BackwardsTwice(list);
      assert (c.list + [v])[..|c.list|] == c.list;
    }

    lemma PushOperandBackIsNewest(v: Value)
      ensures PushOperandBack(v).Operands() == Operands() + [v]
    {
    }
  }

  function Backwards(s: seq<Value>): (r: seq<Value>)
    ensures |r| == |s|
    ensures forall i :: 0 <= i < |s| ==> r[i] == s[|s| - 1 - i]
  {
    if s == [] then [] else [s[|s| - 1]] + Backwards(s[..|s| - 1])
  }

  lemma BackwardsTwice(s: seq<Value>)
    ensures Backwards(Backwards(s)) == s
  {
  }

  /** What the backward walk remembers of the entries it has passed: whether the
      newest of them hides the key, is a put, or is a merge operand. */
  datatype Verdict = Gone | HasPut | HasOperands

  function SoFar(last: Verdict, lastNotMerge: Verdict, pinned: Value, operands: seq<Value>): KeyState {
    match last
    case Gone => Absent
    case HasPut => Plain(pinned)
    case HasOperands => Merged(if lastNotMerge == HasPut then Some(pinned) else None, operands)
  }

  /** What the entry at p does to the verdict on the older entries. */
  lemma OneNewer(db: Db, p: nat, next: nat, last: Verdict, lastNotMerge: Verdict, pinned: Value, operands: seq<Value>)
    requires p < next <= |db.run|
    requires Replay(db, p + 1, next) == SoFar(last, lastNotMerge, pinned, operands)
    requires last != HasOperands ==> lastNotMerge == last && operands == []
    ensures var e, now := db.run[p], Replay(db, p, next);
            if db.Tombstone(e) then now == SoFar(Gone, Gone, pinned, [])
            else if e.kind == Put then now == SoFar(HasPut, HasPut, e.val, [])
            else now == SoFar(HasOperands, lastNotMerge, pinned, operands + [e.val])
  {
    assert last != HasOperands ==> operands + [db.run[p].val] == [db.run[p].val];
  }

  class DBIter {
    const db: Db
    const maxSkip: nat

    var pos: int  // the position of iter_
    var savedKey: UserKey
    var savedValue: Value
    var pinnedValue: Value
    var operands: MergeContext
    var direction: Direction
    var valid: bool
    var merged: bool  // current_entry_is_merged_
    var keySeqZero: bool  // is_key_seqnum_zero_

    predicate InnerValid()
      reads this
    {
      0 <= pos < |db.run|
    }

    /** value() */
    function CurrentValue(): Value
      requires merged || direction == Reverse || InnerValid()
      reads this
    {
      if merged then savedValue
      else if direction == Reverse then pinnedValue
      else db.run[pos].val
    }

    /** The position invariant (1a), (1b), (2) of db_iter.h:58-69. */
    ghost predicate Positioned()
      requires Sound(db)
      reads this
    {
      var first := VisibleStart(db.run, savedKey, db.snapshot);
      var next := KeyStart(db.run, savedKey + 1);
      match direction
      case Forward =>
        && first < next
        && (keySeqZero ==> db.run[first].seqno == 0)
        && if merged then db.run[first].kind == Merge && pos == AfterOperands(db, first, next) else pos == first
      case Reverse =>
        pos == KeyStart(db.run, savedKey) - 1
    }

    ghost predicate Valid()
      reads this
    {
      && Sound(db)
      && -1 <= pos <= |db.run|
      && (valid ==>
            && Positioned()
            && Shows(db, savedKey)
            && CurrentValue() == Reading(db, savedKey))
    }

    lemma ValidIsSound()
      requires Valid()
      ensures Sound(db)
    {
    }

    constructor (db: Db, maxSkip: nat)
      requires WellFormed(db.run)
      ensures Valid() && !valid
      ensures this.db == db && this.maxSkip == maxSkip
    {
      this.db := db;
      this.maxSkip := maxSkip;
      pos, savedKey, savedValue, pinnedValue := -1, 0, "", "";
      operands := MergeContext([], true);
      direction, valid, merged, keySeqZero := Forward, false, false, false;
      WellFormedIsOrdered(db.run);
    }

    // ---- moving forward ----------------------------------------------------

    /** The first key at or after `from` that shows, ready for the user. */
    ghost predicate Found(from: UserKey)
      requires Sound(db)
      reads this
    {
      && from <= savedKey && NoneShown(db, from, savedKey)
      && Shows(db, savedKey)
      && Positioned()
      && CurrentValue() == Reading(db, savedKey)
    }

    /** FindNextUserEntryInternal. The scan looks for the first key at or after
        `from`; when skip is set, it first leaves savedKey behind. */
    method FindNextUserEntry(skip: bool, ghost from: UserKey)
      requires Sound(db) && InnerValid() && direction == Forward
      requires Scanning(db, from, skip, savedKey, pos)
      requires skip && keySeqZero ==> Left(db, savedKey, pos)
      requires db.lower.Some? ==> db.lower.value <= from
      modifies this
      ensures direction == Forward && Sound(db) && -1 <= pos <= |db.run|
      ensures valid ==> Found(from)
      ensures !valid ==> NoneShownFrom(db, from)
    {
      hide Scanning, Frontier, Leaving, Left, NoneShownFrom, Sound, Found, LiveEntry;
      merged := false;
      var skipping, numSkipped, reseekDone := skip, 0, false;
      while InnerValid()
        invariant 0 <= pos <= |db.run| && direction == Forward && !merged
        invariant Scanning(db, from, skipping, savedKey, pos)
        invariant skipping && keySeqZero ==> Left(db, savedKey, pos)
        decreases |db.run| - pos, !reseekDone
      {
        var prevSeqZero := keySeqZero;
        var e := db.run[pos];
        keySeqZero := e.seqno == 0;
        if db.upper.Some? && e.key >= db.upper.value {
          UpperBoundStops(db, from, skipping, savedKey, pos);
          valid := false;
          return;
        }
        ScanStep(db, from, skipping, savedKey, pos);
        if db.Visible(e) {
          if !prevSeqZero && skipping && e.key <= savedKey {
            numSkipped := numSkipped + 1;
          } else {
            assert !skipping || e.key > savedKey;
            numSkipped, reseekDone := 0, false;
            savedKey := e.key;
            if db.Tombstone(e) {
              skipping := true;
            } else {
              Yield(from);
              return;
            }
          }
        } else {
          if e.key == savedKey || (skipping && e.key < savedKey) {
            numSkipped := numSkipped + 1;
          } else {
            savedKey := e.key;
            skipping, numSkipped, reseekDone := false, 0, false;
          }
        }
        if numSkipped > maxSkip && !reseekDone {
          keySeqZero, numSkipped, reseekDone := false, 0, true;
          if skipping {
            pos := SeekIndex(db.run, InternalKey(savedKey, 0, TypeCode(Deletion)));
          } else {
            pos := SeekIndex(db.run, InternalKey(savedKey, db.snapshot, TYPE_FOR_SEEK));
          }
        } else {
          pos := pos + 1;
        }
      }
      valid := false;
      EndOfRunStops(db, from, skipping, savedKey);
    }

    /** The branch of the forward loop that has found a live entry. */
    method Yield(ghost from: UserKey)
      requires Sound(db) && Frontier(db, from, pos) && direction == Forward && !merged
      requires var e := db.run[pos];
               && db.Visible(e) && !db.Tombstone(e)
               && savedKey == e.key
               && (keySeqZero ==> e.seqno == 0)
               && (db.upper.Some? ==> e.key < db.upper.value)
      requires db.lower.Some? ==> db.lower.value <= from
      modifies this
      ensures valid && Found(from) && direction == Forward && -1 <= pos <= |db.run|
    {
      hide StateAt, KeyStart, VisibleStart, Ordered, NoneShown;
      LiveAtFrontier(db, from, pos);
      valid := true;
      if db.run[pos].kind == Merge {
        merged := true;
        MergeValuesNewToOld();
      }
    }

    /** Collects the operands of savedKey from new to old, starting at the
        newest visible entry. */
    method MergeValuesNewToOld()
      requires Sound(db) && LiveEntry(db, savedKey, pos) && db.run[pos].kind == Merge
      modifies this`pos, this`operands, this`savedValue
      ensures pos == AfterOperands(db, old(pos), KeyStart(db.run, savedKey + 1))
      ensures StateAt(db, savedKey) != Absent
      ensures savedValue == Outcome(db, savedKey, StateAt(db, savedKey))
    {
      hide StateAt, KeyStart, VisibleStart, Ordered, Replay, AfterOperands, Push, Apply;
      hide MergeContext.Clear, MergeContext.PushOperand, MergeContext.Operands;
      ghost var next := KeyStart(db.run, savedKey + 1);
      StartsMerge(db, savedKey, pos);
      operands.ClearIsEmpty();
      operands := operands.Clear();
      operands.PushOperandIsOldest(db.run[pos].val);
      operands := operands.PushOperand(db.run[pos].val);
      assert operands.Operands() == [db.run[pos].val];
      pos := pos + 1;
      while InnerValid()
        invariant old(pos) < pos <= next
        invariant StateAt(db, savedKey) == Push(Replay(db, pos, next), operands.Operands())
        invariant AfterOperands(db, old(pos), next) == AfterOperands(db, pos, next)
        decreases next - pos
      {
        var e := db.run[pos];
        KeyEndsWhereKeyChanges(db, savedKey, pos);
        OneOlder(db, pos, next, operands.Operands());
        if e.key != savedKey {
          break;
        }
        if db.Tombstone(e) {
          pos := pos + 1;
          break;
        }
        if e.kind == Put {
          savedValue := db.fullMerge(savedKey, Some(e.val), operands.Operands());
          pos := pos + 1;
          return;
        }
        operands.PushOperandIsOldest(e.val);
        operands := operands.PushOperand(e.val);
        pos := pos + 1;
      }
      OneOlder(db, pos, next, operands.Operands());
      savedValue := db.fullMerge(savedKey, None, operands.Operands());
    }

    // ---- moving backward ---------------------------------------------------

    /** The last key at or before `to` that shows, ready for the user. */
    ghost predicate FoundBack(to: UserKey)
      requires Sound(db)
      reads this
    {
      && savedKey <= to && NoneShown(db, savedKey + 1, to + 1)
      && Shows(db, savedKey)
      && Positioned()
      && CurrentValue() == Reading(db, savedKey)
    }

    method PrevInternal(ghost to: UserKey)
      requires Sound(db) && direction == Reverse && Backward(db, to, pos)
      requires db.upper.Some? ==> to < db.upper.value
      modifies this
      ensures direction == Reverse && -1 <= pos <= |db.run|
      ensures valid ==> FoundBack(to)
      ensures !valid ==> NoneShownUpTo(db, to)
    {
      hide StateAt, KeyStart, VisibleStart, Ordered, NoneShown;
      while InnerValid()
        invariant direction == Reverse && Backward(db, to, pos)
        decreases pos
      {
        savedKey := db.run[pos].key;
        if db.lower.Some? && savedKey < db.lower.value {
          LowerBoundStops(db, to, pos);
          valid := false;
          return;
        }
        ghost var p := pos;
        FindValueForCurrentKey();
        FindUserKeyBeforeSavedKey();
        if valid {
          return;
        }
        BackwardContinues(db, to, p);
      }
      valid := false;
    }

    /** Leaves iter_ just before the entries of savedKey. */
    method FindUserKeyBeforeSavedKey()
      requires Sound(db)
      requires KeyStart(db.run, savedKey) - 1 <= pos < |db.run|
      modifies this`pos
      ensures pos == KeyStart(db.run, savedKey) - 1
    {
      KeyStartSplits(db.run, savedKey);
      var numSkipped := 0;
      while InnerValid()
        invariant KeyStart(db.run, savedKey) - 1 <= pos < |db.run|
        decreases pos
      {
        if db.run[pos].key < savedKey {
          return;
        }
        if numSkipped >= maxSkip {
          numSkipped := 0;
          pos := SeekIndex(db.run, InternalKey(savedKey, MAX_SEQUENCE, TYPE_FOR_SEEK));
          assert InnerValid();
        } else {
          numSkipped := numSkipped + 1;
        }
        pos := pos - 1;
      }
    }

    /** The verdict on savedKey, ready for the user if the key has a value. */
    ghost predicate Judged()
      requires Sound(db)
      reads this
    {
      && direction == Reverse
      && (valid <==> StateAt(db, savedKey) != Absent)
      && (valid ==> CurrentValue() == Outcome(db, savedKey, StateAt(db, savedKey)))
      && KeyStart(db.run, savedKey) - 1 <= pos <= KeyStart(db.run, savedKey + 1)
      && pos < |db.run|
    }

    /** Walks the visible entries of savedKey from old to new. */
    method FindValueForCurrentKey()
      requires Sound(db) && InnerValid() && direction == Reverse
      requires pos == KeyStart(db.run, savedKey + 1) - 1 && db.run[pos].key == savedKey
      modifies this`pos, this`operands, this`savedValue, this`pinnedValue, this`merged, this`valid
      ensures Judged()
    {
      hide StateAt, KeyStart, VisibleStart, Ordered, Apply, Push;
      hide MergeContext.Clear, MergeContext.PushOperandBack, MergeContext.Operands;
      ghost var next := KeyStart(db.run, savedKey + 1);
      VisibleStartSplits(db.run, savedKey, db.snapshot);
      operands.ClearIsEmpty();
      operands := operands.Clear();
      merged := false;
      var last, lastNotMerge, numSkipped := Gone, Gone, 0;
      while InnerValid()
        invariant VisibleStart(db.run, savedKey, db.snapshot) - 1 <= pos < next
        invariant Replay(db, pos + 1, next) == SoFar(last, lastNotMerge, pinnedValue, operands.Operands())
        invariant lastNotMerge != HasOperands && (last != HasOperands ==> lastNotMerge == last && operands.Operands() == [])
        invariant !merged
        decreases pos
      {
        var e := db.run[pos];
        SeenEndsWhereTooNew(db, savedKey, pos);
        if !db.Visible(e) || e.key != savedKey {
          break;
        }
        if numSkipped >= maxSkip {
          FindValueForCurrentKeyUsingSeek();
          return;
        }
        operands.ClearIsEmpty();
        OneNewer(db, pos, next, last, lastNotMerge, pinnedValue, operands.Operands());
        operands.PushOperandBackIsNewest(e.val);
        if db.Tombstone(e) {
          operands := operands.Clear();
          last, lastNotMerge := Gone, Gone;
        } else if e.kind == Put {
          pinnedValue := e.val;
          operands := operands.Clear();
          last, lastNotMerge := HasPut, HasPut;
        } else {
          operands := operands.PushOperandBack(e.val);
          last := HasOperands;
        }
        pos := pos - 1;
        numSkipped := numSkipped + 1;
      }
      StateIsReplay(db, savedKey);
      match last {
        case Gone =>
          valid := false;
        case HasOperands =>
          merged := true;
          savedValue := db.fullMerge(savedKey, if lastNotMerge == HasPut then Some(pinnedValue) else None, operands.Operands());
          valid := true;
        case HasPut =>
          valid := true;
      }
    }

    /** Seeks the newest visible entry of savedKey and goes from new to old. */
    method FindValueForCurrentKeyUsingSeek()
      requires Sound(db) && direction == Reverse && !merged
      requires VisibleStart(db.run, savedKey, db.snapshot) < KeyStart(db.run, savedKey + 1)
      modifies this`pos, this`operands, this`savedValue, this`pinnedValue, this`merged, this`valid
      ensures Judged()
    {
      hide StateAt, KeyStart, VisibleStart, Ordered;
      NewestVisible(db, savedKey);
      SeeksLand(db, savedKey);
      pos := SeekIndex(db.run, InternalKey(savedKey, db.snapshot, TYPE_FOR_SEEK));
      assert InnerValid() && db.run[pos].key == savedKey && db.Visible(db.run[pos]);
      var e := db.run[pos];
      if db.Tombstone(e) {
        valid := false;
        return;
      }
      if e.kind == Put {
        pinnedValue := e.val;
        valid := true;
        return;
      }
      merged := true;
      CollectOperands();
      valid := true;
    }

    /** The second half of FindValueForCurrentKeyUsingSeek: unlike
        MergeValuesNewToOld it stays on the entry that ends the merge, and it
        does not leave iter_ off the end of the run. */
    method CollectOperands()
      requires Sound(db) && LiveEntry(db, savedKey, pos) && db.run[pos].kind == Merge
      modifies this`pos, this`operands, this`savedValue
      ensures StateAt(db, savedKey) != Absent
      ensures savedValue == Outcome(db, savedKey, StateAt(db, savedKey))
      ensures VisibleStart(db.run, savedKey, db.snapshot) <= pos <= KeyStart(db.run, savedKey + 1)
      ensures pos < |db.run|
    {
      hide StateAt, KeyStart, VisibleStart, Ordered, Replay, AfterOperands, Push, Apply;
      hide MergeContext.Clear, MergeContext.PushOperand, MergeContext.Operands;
      ghost var next := KeyStart(db.run, savedKey + 1);
      StartsMerge(db, savedKey, pos);
      operands.ClearIsEmpty();
      operands := operands.Clear();
      operands.PushOperandIsOldest(db.run[pos].val);
      operands := operands.PushOperand(db.run[pos].val);
      assert operands.Operands() == [db.run[pos].val];
      pos := pos + 1;
      while InnerValid()
        invariant old(pos) < pos <= next
        invariant StateAt(db, savedKey) == Push(Replay(db, pos, next), operands.Operands())
        decreases next - pos
      {
        var e := db.run[pos];
        KeyEndsWhereKeyChanges(db, savedKey, pos);
        OneOlder(db, pos, next, operands.Operands());
        if e.key != savedKey || db.Tombstone(e) {
          break;
        }
        if e.kind == Put {
          savedValue := db.fullMerge(savedKey, Some(e.val), operands.Operands());
          return;
        }
        operands.PushOperandIsOldest(e.val);
        operands := operands.PushOperand(e.val);
        pos := pos + 1;
      }
      OneOlder(db, pos, next, operands.Operands());
      savedValue := db.fullMerge(savedKey, None, operands.Operands());
      if !InnerValid() {
        SeeksLand(db, savedKey);
        pos := SeekIndex(db.run, InternalKey(savedKey, db.snapshot, TYPE_FOR_SEEK));
        assert InnerValid();
      }
    }

    // ---- changing direction ------------------------------------------------

    method ReverseToForward()
      requires Sound(db) && pos == KeyStart(db.run, savedKey) - 1
      modifies this`pos, this`direction
      ensures direction == Forward && pos == KeyStart(db.run, savedKey)
    {
      hide Ordered;
      KeyStartSplits(db.run, savedKey);
      if !InnerValid() {
        pos := SeekIndex(db.run, InternalKey(savedKey, MAX_SEQUENCE, TYPE_FOR_SEEK));
      }
      direction := Forward;
      while InnerValid()
        invariant KeyStart(db.run, savedKey) - 1 <= pos <= KeyStart(db.run, savedKey) && 0 <= pos
        invariant direction == Forward
        decreases |db.run| - pos
      {
        if db.run[pos].key >= savedKey {
          return;
        }
        pos := pos + 1;
      }
    }

    method ReverseToBackward()
      requires Sound(db) && direction == Forward
      requires KeyStart(db.run, savedKey) <= pos <= |db.run| && KeyStart(db.run, savedKey) < |db.run|
      requires !merged ==> pos < |db.run|
      modifies this`pos, this`direction
      ensures direction == Reverse && pos == KeyStart(db.run, savedKey) - 1
    {
      if merged && !InnerValid() {
        pos := SeekIndex(db.run, InternalKey(savedKey, MAX_SEQUENCE, TYPE_FOR_SEEK));
        assert InnerValid();
      }
      direction := Reverse;
      FindUserKeyBeforeSavedKey();
    }

    // ---- the operations ----------------------------------------------------

    ghost function Cursor(): Cursor
      reads this
    {
      if valid then Some(savedKey) else None
    }

    method Seek(target: UserKey)
      requires Valid()
      modifies this
      ensures Valid() && Cursor() == FirstFrom(View(db), target)
    {
      hide StateAt, VisibleStart, Ordered;
      keySeqZero := false;
      savedKey := if db.lower.Some? && target < db.lower.value then db.lower.value else target;
      ghost var from := savedKey;
      SeekLandsAtFrontier(db, from);
      pos := SeekIndex(db.run, InternalKey(savedKey, db.snapshot, TYPE_FOR_SEEK));
      if !InnerValid() {
        valid := false;
      } else {
        direction := Forward;
        savedValue := "";
        FindNextUserEntry(false, from);
      }
      CursorForward(db, target, Cursor());
    }

    method SeekForPrev(target: UserKey)
      requires Valid()
      modifies this
      ensures Valid() && Cursor() == LastUpTo(View(db), target)
    {
      hide StateAt, KeyStart, VisibleStart, Ordered;
      keySeqZero := false;
      var to := target;
      if db.upper.Some? && target >= db.upper.value {
        savedKey := db.upper.value;
        to := savedKey - 1;
        SeekForPrevBeforeKey(db.run, savedKey);
        pos := SeekForPrevIndex(db.run, InternalKey(savedKey, MAX_SEQUENCE, TYPE_FOR_SEEK));
      } else {
        savedKey := target;
        SeekForPrevLastOfKey(db.run, savedKey);
        pos := SeekForPrevIndex(db.run, InternalKey(savedKey, 0, TYPE_FOR_SEEK_FOR_PREV));
      }
      BackwardStarts(db, to);
      if !InnerValid() {
        valid := false;
      } else {
        direction := Reverse;
        savedValue := "";
        PrevInternal(to);
      }
      CursorBackward(db, target, Cursor());
    }

    method SeekToFirst()
      requires Valid()
      modifies this
      ensures Valid() && Cursor() == First(View(db))
    {
      hide StateAt, VisibleStart, Ordered;
      if db.lower.Some? {
        Seek(db.lower.value);
        CursorFirst(db, db.lower.value);
        return;
      }
      direction, savedValue, keySeqZero := Forward, "", false;
      pos := 0;
      if InnerValid() {
        savedKey := db.run[pos].key;
        ghost var from := savedKey;
        StartIsFrontier(db);
        FindNextUserEntry(false, from);
        CursorForward(db, from, Cursor());
        CursorFirst(db, from);
      } else {
        valid := false;
        EmptyRun(db);
      }
    }

    method SeekToLast()
      requires Valid()
      modifies this
      ensures Valid() && Cursor() == Last(View(db))
    {
      hide StateAt, VisibleStart, Ordered;
      if db.upper.Some? {
        SeekForPrev(db.upper.value);
        CursorLast(db, db.upper.value);
        // The source steps back once more should the upper bound itself show.
        assert !(valid && savedKey == db.upper.value);
        return;
      }
      direction, savedValue, keySeqZero := Reverse, "", false;
      pos := |db.run| - 1;
      if pos == -1 {
        EmptyRun(db);
        valid := false;
      } else {
        ghost var to := db.run[pos].key;
        EndIsBackward(db);
        PrevInternal(to);
        CursorBackward(db, to, Cursor());
        CursorLast(db, to);
      }
    }

    method Next()
      requires Valid() && valid
      modifies this
      ensures Valid() && Cursor() == FirstFrom(View(db), old(savedKey) + 1)
    {
      hide StateAt, KeyStart, VisibleStart, Ordered, Leaving, Left, NoneShown;
      ghost var from := savedKey + 1;
      ShownHasEntry(db, savedKey);
      NextStartsLeaving(db, savedKey);
      if direction == Reverse {
        keySeqZero := false;
        ReverseToForward();
      } else if !merged {
        pos := pos + 1;
      }
      if InnerValid() {
        FindNextUserEntry(true, from);
      } else {
        EndOfRunStops(db, from, true, savedKey);
        keySeqZero := false;
        valid := false;
      }
      CursorForward(db, from, Cursor());
    }

    method Prev()
      requires Valid() && valid
      modifies this
      ensures Valid() && Cursor() == LastUpTo(View(db), old(savedKey) - 1)
    {
      hide StateAt, KeyStart, VisibleStart, Ordered, NoneShown, Leaving, Left;
      ghost var to := savedKey - 1;
      ShownHasEntry(db, savedKey);
      NextStartsLeaving(db, savedKey);
      if direction == Forward {
        ReverseToBackward();
      }
      BackwardStarts(db, to);
      PrevInternal(to);
      CursorBackward(db, to, Cursor());
    }

    method Do(op: Op)
      requires Valid()
      modifies this
      ensures Valid() && Cursor() == Move(View(db), old(Cursor()), op)
    {
      match op
      case Seek(t) => Seek(t);
      case SeekForPrev(t) => SeekForPrev(t);
      case SeekToFirst => SeekToFirst();
      case SeekToLast => SeekToLast();
      case Next => if valid { Next(); }
      case Prev => if valid { Prev(); }
    }

    /** key() and value() */
    method Observe() returns (shown: Shown)
      requires Valid()
      ensures shown == Look(View(db), Cursor())
    {
      shown := if valid then Some((savedKey, CurrentValue())) else None;
      ViewHasWhatShows(db, savedKey);
    }
  }

  /** Every run of operations on a fresh iterator shows exactly what the cursor
      over the snapshot's map shows, whatever maxSkip is. */
  method Run(db: Db, maxSkip: nat, ops: seq<Op>) returns (shown: seq<Shown>)
    requires WellFormed(db.run)
    ensures Ordered(db.run) && shown == Trace(View(db), None, ops)
  {
    hide View, Move, Look;
    var it := new DBIter(db, maxSkip);
    shown := [];
    for i := 0 to |ops|
      invariant it.Valid() && it.db == db
      invariant Trace(View(db), None, ops) == shown + Trace(View(db), it.Cursor(), ops[i..])
    {
      it.Do(ops[i]);
      var s := it.Observe();
      assert ops[i..][1..] == ops[i + 1..];
      shown := shown + [s];
    }
  }
}
