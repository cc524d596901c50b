/** Internal keys, their order, and the sorted run of versioned entries that an
    inner iterator walks (db/dbformat.cc, db/dbformat.h). */
module InternalKeys {
  import opened MapCursor

  /** The value types that a plain store without blobs or timestamps holds. */
  datatype Kind = Deletion | Put | Merge | SingleDeletion

  /** The number that each value type has on disk. */
  function TypeCode(kind: Kind): nat {
    match kind
    case Deletion => 0x0
    case Put => 0x1
    case Merge => 0x2
    case SingleDeletion => 0x7
  }

  const TYPE_FOR_SEEK: nat := 0x14
  const TYPE_FOR_SEEK_FOR_PREV: nat := 0x0
  const MAX_SEQUENCE: nat := 0xFF_FFFF_FFFF_FFFF

  datatype InternalKey = InternalKey(user: UserKey, sequence: nat, typ: nat)

  datatype Entry = Entry(key: UserKey, seqno: nat, kind: Kind, val: Value) {
    function Internal(): InternalKey {
      InternalKey(key, seqno, TypeCode(kind))
    }
  }

  /** Increasing user key, then decreasing sequence number, then decreasing type. */
  function Compare(a: InternalKey, b: InternalKey): int {
    if a.user < b.user then -1
    else if a.user > b.user then 1
    else if a.sequence > b.sequence then -1
    else if a.sequence < b.sequence then 1
    else if a.typ > b.typ then -1
    else if a.typ < b.typ then 1
    else 0
  }

  /** A total order on internal keys. */
  lemma CompareIsOrder(a: InternalKey, b: InternalKey, c: InternalKey)
    ensures Compare(a, b) == 0 <==> a == b
    ensures Compare(a, b) < 0 <==> Compare(b, a) > 0
    ensures Compare(a, b) < 0 && Compare(b, c) < 0 ==> Compare(a, c) < 0
  {
  }

  /** What a run of entries guarantees: strictly increasing under Compare, at
      most one entry per user key and sequence number, and no entry at the
      sequence number that is reserved for seeking. */
  ghost predicate WellFormed(run: seq<Entry>) {
    && (forall i, j :: 0 <= i < j < |run| ==> Compare(run[i].Internal(), run[j].Internal()) < 0)
    && (forall i, j :: 0 <= i < j < |run| ==> run[i].key != run[j].key || run[i].seqno != run[j].seqno)
    && (forall i :: 0 <= i < |run| ==> run[i].seqno < MAX_SEQUENCE)
  }

  /** The order that the proofs work with. */
  ghost predicate Ordered(run: seq<Entry>) {
    && (forall i, j :: 0 <= i < j < |run| ==> run[i].key <= run[j].key)
    && (forall i, j :: 0 <= i < j < |run| && run[i].key == run[j].key ==> run[i].seqno > run[j].seqno)
    && (forall i :: 0 <= i < |run| ==> run[i].seqno < MAX_SEQUENCE)
  }

  lemma WellFormedIsOrdered(run: seq<Entry>)
    requires WellFormed(run)
    ensures Ordered(run)
  {
    forall i, j | 0 <= i < j < |run|
      ensures run[i].key <= run[j].key
      ensures run[i].key == run[j].key ==> run[i].seqno > run[j].seqno
    {
      assert Compare(run[i].Internal(), run[j].Internal()) < 0;
    }
  }

  // ---- seeking -------------------------------------------------------------

  /** Where the inner iterator's Seek(target) lands: the first entry that does
      not order before the target, or the end. */
  function SeekFrom(run: seq<Entry>, target: InternalKey, i: nat): (p: nat)
    requires i <= |run|
    ensures i <= p <= |run|
    ensures forall j :: i <= j < p ==> Compare(run[j].Internal(), target) < 0
    ensures p < |run| ==> Compare(run[p].Internal(), target) >= 0
    decreases |run| - i
  {
    if i < |run| && Compare(run[i].Internal(), target) < 0 then SeekFrom(run, target, i + 1) else i
  }

  function SeekIndex(run: seq<Entry>, target: InternalKey): (p: nat)
    ensures p <= |run|
    ensures forall j :: 0 <= j < p ==> Compare(run[j].Internal(), target) < 0
    ensures p < |run| ==> Compare(run[p].Internal(), target) >= 0
  {
    SeekFrom(run, target, 0)
  }

  /** Where SeekForPrev(target) lands: the last entry that does not order after
      the target, or -1. */
  function SeekBack(run: seq<Entry>, target: InternalKey, i: nat): (p: int)
    requires i <= |run|
    ensures -1 <= p < i
    ensures forall j :: p < j < i ==> Compare(run[j].Internal(), target) > 0
    ensures 0 <= p ==> Compare(run[p].Internal(), target) <= 0
  {
    if 0 < i && Compare(run[i - 1].Internal(), target) > 0 then SeekBack(run, target, i - 1) else i - 1
  }

  function SeekForPrevIndex(run: seq<Entry>, target: InternalKey): (p: int)
    ensures -1 <= p < |run|
    ensures forall j :: p < j < |run| ==> Compare(run[j].Internal(), target) > 0
    ensures 0 <= p ==> Compare(run[p].Internal(), target) <= 0
  {
    SeekBack(run, target, |run|)
  }

  // ---- landmarks of a run --------------------------------------------------

  /** Index of the first entry whose user key is at least k. */
  ghost function KeyStart(run: seq<Entry>, k: UserKey): (p: nat)
    ensures p <= |run|
  {
    SeekIndex(run, InternalKey(k, MAX_SEQUENCE, TYPE_FOR_SEEK))
  }

  lemma KeyStartSplits(run: seq<Entry>, k: UserKey)
    requires Ordered(run)
    ensures forall j :: 0 <= j < KeyStart(run, k) ==> run[j].key < k
    ensures forall j :: KeyStart(run, k) <= j < |run| ==> run[j].key >= k
  {
  }

  /** Index of the first entry of user key k that the snapshot can see, or of
      the first entry of a larger key when there is none. */
  ghost function VisibleStart(run: seq<Entry>, k: UserKey, snapshot: nat): (p: nat)
    ensures p <= |run|
  {
    SeekIndex(run, InternalKey(k, snapshot, TYPE_FOR_SEEK))
  }

  lemma VisibleStartSplits(run: seq<Entry>, k: UserKey, snapshot: nat)
    requires Ordered(run)
    ensures KeyStart(run, k) <= VisibleStart(run, k, snapshot) <= KeyStart(run, k + 1)
    ensures forall j :: KeyStart(run, k) <= j < KeyStart(run, k + 1) ==> run[j].key == k
    ensures forall j :: KeyStart(run, k) <= j < VisibleStart(run, k, snapshot) ==> run[j].seqno > snapshot
    ensures forall j :: VisibleStart(run, k, snapshot) <= j < KeyStart(run, k + 1) ==> run[j].seqno <= snapshot
  {
    KeyStartSplits(run, k);
    KeyStartSplits(run, k + 1);
  }

  lemma KeyStartIs(run: seq<Entry>, k: UserKey, p: nat)
    requires Ordered(run)
    requires p <= |run|
    requires 0 < p ==> run[p - 1].key < k
    requires p < |run| ==> k <= run[p].key
    ensures KeyStart(run, k) == p
  {
    KeyStartSplits(run, k);
    var q := KeyStart(run, k);
    assert q < |run| ==> k <= run[q].key;
    assert q > 0 ==> run[q - 1].key < k;
  }

  /** The target that the forward loop uses to leave a user key behind lands on
      the next key, or on a tombstone with sequence number 0 that ends this key. */
  lemma SeekPastKey(run: seq<Entry>, k: UserKey)
    requires Ordered(run)
    ensures var p := SeekIndex(run, InternalKey(k, 0, TypeCode(Deletion)));
            var next := KeyStart(run, k + 1);
            p == next || (p == next - 1 && run[p] == run[p].(key := k, seqno := 0, kind := Deletion))
  {
    var p := SeekIndex(run, InternalKey(k, 0, TypeCode(Deletion)));
    KeyStartSplits(run, k + 1);
    assert KeyStart(run, k + 1) < |run| ==> run[KeyStart(run, k + 1)].key > k;
    assert p + 1 < |run| ==> run[p].key < run[p + 1].key || run[p].seqno > run[p + 1].seqno;
  }

  lemma SeekForPrevLastOfKey(run: seq<Entry>, k: UserKey)
    requires Ordered(run)
    ensures SeekForPrevIndex(run, InternalKey(k, 0, TYPE_FOR_SEEK_FOR_PREV)) == KeyStart(run, k + 1) - 1
  {
    KeyStartIs(run, k + 1, SeekForPrevIndex(run, InternalKey(k, 0, TYPE_FOR_SEEK_FOR_PREV)) + 1);
  }

  lemma SeekForPrevBeforeKey(run: seq<Entry>, k: UserKey)
    requires Ordered(run)
    ensures SeekForPrevIndex(run, InternalKey(k, MAX_SEQUENCE, TYPE_FOR_SEEK)) == KeyStart(run, k) - 1
  {
    KeyStartIs(run, k, SeekForPrevIndex(run, InternalKey(k, MAX_SEQUENCE, TYPE_FOR_SEEK)) + 1);
  }
}
