/** What a reader at one snapshot is meant to see: the store obtained by
    replaying every visible write in order of sequence number, and a cursor
    over the resulting sorted map (the promise made at db/db_iter.h:25-55). */
module SnapshotView {
  import opened MapCursor
  import opened InternalKeys

  /** A run of entries as one iterator sees it. `covered` tells whether a
      visible range tombstone hides an entry; `fullMerge` is the merge operator,
      given the key, the base value if any, and the operands from old to new. */
  datatype Db = Db(
    run: seq<Entry>,
    snapshot: nat,
    covered: (UserKey, nat) -> bool,
    fullMerge: (UserKey, Option<Value>, seq<Value>) -> Value,
    lower: Option<UserKey>,
    upper: Option<UserKey>)
  {
    predicate Visible(e: Entry) {
      e.seqno <= snapshot
    }

    predicate Tombstone(e: Entry) {
      e.kind == Deletion || e.kind == SingleDeletion || covered(e.key, e.seqno)
    }

    predicate InBounds(k: UserKey) {
      && (lower.Some? ==> lower.value <= k)
      && (upper.Some? ==> k < upper.value)
    }
  }

  /** What the writes to one key amount to, from the oldest on. */
  datatype KeyState =
    | Absent
    | Plain(val: Value)
    | Merged(base: Option<Value>, operands: seq<Value>)

  /** One more write on top of the older ones. */
  function Apply(db: Db, e: Entry, older: KeyState): KeyState {
    if db.Tombstone(e) then Absent
    else if e.kind == Put then Plain(e.val)
    else Push(older, [e.val])
  }

  /** Newer merge operands, in order of age, on top of a state. */
  function Push(older: KeyState, operands: seq<Value>): KeyState {
    match older
    case Absent => Merged(None, operands)
    case Plain(v) => Merged(Some(v), operands)
    case Merged(base, ops) => Merged(base, ops + operands)
  }

  /** The writes run[i..j] to one key, replayed oldest first. */
  function Replay(db: Db, i: nat, j: nat): KeyState
    requires i <= j <= |db.run|
    decreases j - i
  {
    if i == j then Absent else Apply(db, db.run[i], Replay(db, i + 1, j))
  }

  function Outcome(db: Db, k: UserKey, s: KeyState): Value
    requires s != Absent
  {
    match s
    case Plain(v) => v
    case Merged(base, operands) => db.fullMerge(k, base, operands)
  }

  ghost predicate Sound(db: Db) {
    Ordered(db.run)
  }

  /** The state of key k at the snapshot. */
  ghost function StateAt(db: Db, k: UserKey): KeyState
    requires Sound(db)
  {
    VisibleStartSplits(db.run, k, db.snapshot);
    Replay(db, VisibleStart(db.run, k, db.snapshot), KeyStart(db.run, k + 1))
  }

  ghost predicate Shows(db: Db, k: UserKey)
    requires Sound(db)
  {
    db.InBounds(k) && StateAt(db, k) != Absent
  }

  ghost function Reading(db: Db, k: UserKey): Value
    requires Sound(db) && Shows(db, k)
  {
    Outcome(db, k, StateAt(db, k))
  }

  /** The user-visible map. */
  ghost function View(db: Db): map<UserKey, Value>
    requires Sound(db)
  {
    map k | k in (set i | 0 <= i < |db.run| :: db.run[i].key) && Shows(db, k) :: Reading(db, k)
  }

  lemma ViewHasWhatShows(db: Db, k: UserKey)
    requires Sound(db)
    ensures k in View(db) <==> Shows(db, k)
    ensures Shows(db, k) ==> View(db)[k] == Reading(db, k)
  {
    VisibleStartSplits(db.run, k, db.snapshot);
  }

  lemma ShownHasEntry(db: Db, k: UserKey)
    requires Sound(db) && Shows(db, k)
    ensures VisibleStart(db.run, k, db.snapshot) < KeyStart(db.run, k + 1)
  {
    VisibleStartSplits(db.run, k, db.snapshot);
  }

  /** No key in [from, to) shows. */
  ghost predicate NoneShown(db: Db, from: UserKey, to: UserKey)
    requires Sound(db)
  {
    forall k :: from <= k < to ==> !Shows(db, k)
  }

  ghost predicate NoneShownFrom(db: Db, from: UserKey)
    requires Sound(db)
  {
    forall k :: from <= k ==> !Shows(db, k)
  }

  ghost predicate NoneShownUpTo(db: Db, to: UserKey)
    requires Sound(db)
  {
    forall k :: k <= to ==> !Shows(db, k)
  }

  /** Keys strictly between two neighbouring entries do not show. */
  lemma GapShowsNothing(db: Db, p: int, k: UserKey)
    requires Sound(db)
    requires -1 <= p < |db.run|
    requires 0 <= p ==> db.run[p].key < k
    requires p + 1 < |db.run| ==> k < db.run[p + 1].key
    ensures !Shows(db, k)
  {
    KeyStartIs(db.run, k, p + 1);
    KeyStartIs(db.run, k + 1, p + 1);
    VisibleStartSplits(db.run, k, db.snapshot);
  }
}
