/** Runs of client operations on an LRU cache shard, told operation by operation: what
    enters and leaves the table, what lookups answer, and what clients then hold. All
    of it is fixed by the operations, up to the choice of the handles evicted. */
module LruStory {
  import opened LruTable
  import opened LruList
  import opened LruPools
  import opened LruHistory

  type Held = seq<LRUHandle>  // one entry for every reference that clients hold

  datatype Op =
    | Lookup(id: Id)
    | Insert(id: Id, total: nat, highPri: bool, wantHandle: bool)
    | Ref(i: nat)
    | Release(i: nat, force: bool)
    | Erase(id: Id)
    | EraseUnRefEntries
    | SetCapacity(capacity: nat)
    | SetStrictCapacityLimit(strict: bool)
    | SetRatio(ratio: real)

  /** The capacity that the operations leave behind. */
  function CapacityAfter(capacity: nat, ops: seq<Op>): nat {
    if ops == [] then capacity
    else if ops[|ops| - 1].SetCapacity? then ops[|ops| - 1].capacity
    else CapacityAfter(capacity, ops[..|ops| - 1])
  }

  function StrictAfter(strict: bool, ops: seq<Op>): bool {
    if ops == [] then strict
    else if ops[|ops| - 1].SetStrictCapacityLimit? then ops[|ops| - 1].strict
    else StrictAfter(strict, ops[..|ops| - 1])
  }

  // ---- one operation -----------------------------------------------------------

  function Holding(held: Held): set<LRUHandle> {
    set h | h in held
  }

  /** The handles alive are those in the table and those held. */
  function Alive(contents: Contents, held: Held): set<LRUHandle> {
    contents.Values + Holding(held)
  }

  /** A new entry gets in if it fits beside everything held, or if it may overflow the
      shard and will be held itself. */
  ghost predicate Accepts(held: Held, total: nat, wantHandle: bool, capacity: nat, strict: bool) {
    Weight(Holding(held)) + total <= capacity || (wantHandle && !strict)
  }

  /** Entries of the table leave it that nobody holds. */
  predicate Evictions(contents: Contents, held: Held, part: History) {
    forall p :: 0 <= p < |part| ==> part[p].Gone? && IsFiled(contents, part[p].h) && part[p].h !in held
  }

  /** Nothing is left in the table that nobody holds. */
  predicate AllHeld(contents: Contents, held: Held) {
    contents.Values <= Holding(held)
  }

  /** They leave until there is room for `total`, or until nothing more can, and not
      longer. */
  ghost predicate Enough(contents: Contents, held: Held, part: History, total: nat, capacity: nat) {
    && (|| Weight(Alive(Filing(contents, part), held)) + total <= capacity
        || AllHeld(Filing(contents, part), held))
    && (part != [] ==> Weight(Alive(Filing(contents, part[..|part| - 1]), held)) + total > capacity)
  }

  /** Making room for `total`. */
  ghost predicate MakesRoom(contents: Contents, held: Held, part: History, total: nat, capacity: nat) {
    Evictions(contents, held, part) && Enough(contents, held, part, total, capacity)
  }

  /** What an operation tells, and what clients hold afterwards. */
  ghost predicate Tells(op: Op, contents: Contents, held: Held, capacity: nat, strict: bool, part: History, held': Held) {
    match op
    case Lookup(id) =>
      if id in contents then part == [Hit(id, contents[id])] && held' == held + [contents[id]]
      else part == [Miss(id)] && held' == held
    case Insert(id, total, highPri, wantHandle) =>
      if Accepts(held, total, wantHandle, capacity, strict) then
        && part != []
        && var last := |part| - 1;
        && part[last].Placed?
        && var e := part[last].h;
        && e.id == id && e.total == total && e.highPri == highPri && e !in Alive(contents, held)
        && MakesRoom(contents, held, part[..last], total, capacity)
        && held' == if wantHandle then held + [e] else held
      else
        MakesRoom(contents, held, part, total, capacity) && held' == held
    case Ref(i) => part == [] && held' == if i < |held| then held + [held[i]] else held
    case Release(i, force) =>
      if i < |held| then
        && held' == RemovedAt(held, i)
        && part == if FreedBy(contents, held, i, force, capacity) then [Gone(held[i])] else []
      else
        part == [] && held' == held
    case Erase(id) => part == (if id in contents then [Gone(contents[id])] else []) && held' == held
    case EraseUnRefEntries => Evictions(contents, held, part) && AllHeld(Filing(contents, part), held) && held' == held
    case SetCapacity(c) => MakesRoom(contents, held, part, 0, c) && held' == held
    case SetStrictCapacityLimit(_) => part == [] && held' == held
    case SetRatio(_) => part == [] && held' == held
  }

  /** Whether giving up reference i frees the handle: nobody else holds it, and it is
      out of the table, the shard is over capacity, or the client insists. */
  ghost predicate FreedBy(contents: Contents, held: Held, i: nat, force: bool, capacity: nat)
    requires i < |held|
  {
    && held[i] !in RemovedAt(held, i)
    && (IsFiled(contents, held[i]) ==> force || Weight(Alive(contents, held)) > capacity)
  }

  // ---- whole runs --------------------------------------------------------------

  /** The table after the parts told so far. */
  function Table(parts: seq<History>): Contents {
    if parts == [] then map[] else Filing(Table(parts[..|parts| - 1]), parts[|parts| - 1])
  }

  function Flat(parts: seq<History>): History {
    if parts == [] then [] else Flat(parts[..|parts| - 1]) + parts[|parts| - 1]
  }

  /** The operations tell these parts, with these references held in between. */
  ghost predicate Story(capacity: nat, strict: bool, ops: seq<Op>, parts: seq<History>, helds: seq<Held>) {
    && |parts| == |ops| && |helds| == |ops| + 1 && helds[0] == []
    && forall i :: 0 <= i < |ops| ==>
         Tells(ops[i], Table(parts[..i]), helds[i], CapacityAfter(capacity, ops[..i]), StrictAfter(strict, ops[..i]),
               parts[i], helds[i + 1])
  }

  lemma OneMorePart(parts: seq<History>, part: History)
    ensures Table(parts + [part]) == Filing(Table(parts), part)
    ensures Flat(parts + [part]) == Flat(parts) + part
  {
    assert (parts + [part])[..|parts|] == parts;
  }

  lemma StoryGoesOn(capacity: nat, strict: bool, ops: seq<Op>, n: nat, parts: seq<History>, helds: seq<Held>, part: History, held: Held)
    requires n < |ops| && Story(capacity, strict, ops[..n], parts, helds)
    requires Tells(ops[n], Table(parts), helds[n], CapacityAfter(capacity, ops[..n]), StrictAfter(strict, ops[..n]), part, held)
    ensures Story(capacity, strict, ops[..n + 1], parts + [part], helds + [held])
  {
    hide Tells, Table, CapacityAfter, StrictAfter;
    var ops', parts', helds' := ops[..n + 1], parts + [part], helds + [held];
    forall i | 0 <= i < |ops'|
      ensures Tells(ops'[i], Table(parts'[..i]), helds'[i], CapacityAfter(capacity, ops'[..i]), StrictAfter(strict, ops'[..i]),
                    parts'[i], helds'[i + 1])
    {
      assert ops'[..i] == ops[..i] && parts'[..i] == parts[..i];
      if i < n {
        assert ops[..n][..i] == ops[..i];
        assert ops[..n][i] == ops'[i];
      } else {
        assert parts[..n] == parts;
      }
    }
  }

  // ---- lookups -----------------------------------------------------------------

  /** The part neither takes h out of the table nor files anything under its key. */
  predicate Spares(part: History, h: LRUHandle) {
    forall p :: 0 <= p < |part| ==> part[p] != Gone(h) && !(part[p].Placed? && part[p].h.id == h.id)
  }

  lemma {:induction false} PartFiles(contents: Contents, part: History, h: LRUHandle)
    ensures IsFiled(Filing(contents, part), h) ==> Placed(h) in part || (IsFiled(contents, h) && Spares(part, h))
    ensures IsFiled(contents, h) && Spares(part, h) ==> IsFiled(Filing(contents, part), h)
    ensures part != [] && part[|part| - 1] == Placed(h) ==> IsFiled(Filing(contents, part), h)
  {
    if part != [] {
      PartFiles(contents, part[..|part| - 1], h);
    }
  }

  /** Only an accepted insertion files anything, under its own key and last. */
  lemma PlacedByInsert(op: Op, contents: Contents, held: Held, capacity: nat, strict: bool, part: History, held': Held, p: nat)
    requires Tells(op, contents, held, capacity, strict, part, held') && p < |part| && part[p].Placed?
    ensures op.Insert? && op.id == part[p].h.id && p == |part| - 1 && Accepts(held, op.total, op.wantHandle, capacity, strict)
  {
    hide Accepts, Enough, Filing, AllHeld;
    assert forall q :: 0 <= q < |part| - 1 ==> part[..|part| - 1][q] == part[q];
  }

  /** Operation j inserted h, and no operation from then to i took it out of the table
      or filed anything under its key. */
  predicate FiledSince(ops: seq<Op>, parts: seq<History>, j: nat, i: nat, h: LRUHandle) {
    && j < i <= |parts| == |ops|
    && ops[j].Insert? && ops[j].id == h.id && parts[j] != [] && parts[j][|parts[j]| - 1] == Placed(h)
    && forall l :: j < l < i ==> Spares(parts[l], h)
  }

  /** Before operation i the table has exactly what an earlier operation inserted and
      none has touched since. */
  lemma {:induction false} FiledByInsert(capacity: nat, strict: bool, ops: seq<Op>, parts: seq<History>, helds: seq<Held>, i: nat, h: LRUHandle)
    requires Story(capacity, strict, ops, parts, helds) && i <= |ops|
    ensures IsFiled(Table(parts[..i]), h) <==> exists j: nat :: FiledSince(ops, parts, j, i, h)
  {
    hide Tells, Filing, Spares, CapacityAfter, StrictAfter;
    if i > 0 {
      var k := i - 1;
      FiledByInsert(capacity, strict, ops, parts, helds, k, h);
      assert parts[..i][..k] == parts[..k];
      PartFiles(Table(parts[..k]), parts[k], h);
      if IsFiled(Table(parts[..i]), h) {
        if Placed(h) in parts[k] {
          var p: nat :| p < |parts[k]| && parts[k][p] == Placed(h);
          PlacedByInsert(ops[k], Table(parts[..k]), helds[k], CapacityAfter(capacity, ops[..k]), StrictAfter(strict, ops[..k]),
                         parts[k], helds[i], p);
          assert FiledSince(ops, parts, k, i, h);
        } else {
          var j: nat :| FiledSince(ops, parts, j, k, h);
          assert FiledSince(ops, parts, j, i, h);
        }
      }
      if exists j: nat :: FiledSince(ops, parts, j, i, h) {
        var j: nat :| FiledSince(ops, parts, j, i, h);
        if j < k {
          assert FiledSince(ops, parts, j, k, h);
        }
      }
    }
  }

  lemma {:induction false} FilingIsKeyed(contents: Contents, part: History)
    requires forall id :: id in contents ==> contents[id].id == id
    ensures forall id :: id in Filing(contents, part) ==> Filing(contents, part)[id].id == id
  {
    if part != [] {
      FilingIsKeyed(contents, part[..|part| - 1]);
    }
  }

  lemma {:induction false} TableIsKeyed(parts: seq<History>)
    ensures forall id :: id in Table(parts) ==> Table(parts)[id].id == id
  {
    if parts != [] {
      TableIsKeyed(parts[..|parts| - 1]);
      FilingIsKeyed(Table(parts[..|parts| - 1]), parts[|parts| - 1]);
    }
  }

  /** A lookup of a run hits h if and only if h was inserted under the key and nothing
      has touched it since, and misses only if there is no such handle. */
  lemma LookupsOfRun(capacity: nat, strict: bool, ops: seq<Op>, parts: seq<History>, helds: seq<Held>, i: nat, h: LRUHandle)
    requires Story(capacity, strict, ops, parts, helds) && i < |ops| && ops[i].Lookup?
    ensures parts[i] == [Hit(ops[i].id, h)] <==> h.id == ops[i].id && exists j: nat :: FiledSince(ops, parts, j, i, h)
    ensures parts[i] == [Hit(ops[i].id, h)] ==> helds[i + 1] == helds[i] + [h]
    ensures parts[i] == [Miss(ops[i].id)] && h.id == ops[i].id ==> !exists j: nat :: FiledSince(ops, parts, j, i, h)
    ensures parts[i] == [Miss(ops[i].id)] || exists g :: g in helds[i + 1] && parts[i] == [Hit(ops[i].id, g)]
  {
    hide Table, FiledSince, CapacityAfter, StrictAfter, Accepts, MakesRoom, Evictions, AllHeld, FreedBy, Filing;
    FiledByInsert(capacity, strict, ops, parts, helds, i, h);
    TableIsKeyed(parts[..i]);
    assert Tells(ops[i], Table(parts[..i]), helds[i], CapacityAfter(capacity, ops[..i]), StrictAfter(strict, ops[..i]),
                 parts[i], helds[i + 1]);
    var contents := Table(parts[..i]);
    if ops[i].id in contents {
      assert contents[ops[i].id] in helds[i + 1];
    }
  }

  /** In between nobody has erased the key, and no other insertion of it was accepted. */
  lemma NothingSince(capacity: nat, strict: bool, ops: seq<Op>, parts: seq<History>, helds: seq<Held>, j: nat, i: nat, h: LRUHandle, l: nat)
    requires Story(capacity, strict, ops, parts, helds) && FiledSince(ops, parts, j, i, h) && j < l < i
    ensures ops[l] != Erase(h.id)
    ensures ops[l].Insert? && ops[l].id == h.id ==>
              !Accepts(helds[l], ops[l].total, ops[l].wantHandle, CapacityAfter(capacity, ops[..l]), StrictAfter(strict, ops[..l]))
  {
    hide Table, CapacityAfter, StrictAfter, Accepts, MakesRoom, Evictions, AllHeld, FreedBy, Filing;
    assert FiledSince(ops, parts, j, l, h);
    FiledByInsert(capacity, strict, ops, parts, helds, l, h);
    assert Tells(ops[l], Table(parts[..l]), helds[l], CapacityAfter(capacity, ops[..l]), StrictAfter(strict, ops[..l]),
                 parts[l], helds[l + 1]);
    assert Gone(h) !in parts[l];
  }
}
