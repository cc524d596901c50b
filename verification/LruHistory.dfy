/** What clients of an LRU cache shard can tell afterwards: which handles were
    placed in the table, which left it, and what lookups answered. */
module LruHistory {
  import opened LruTable
  import opened LruList
  import opened LruPools

  datatype Seen =
    | Placed(h: LRUHandle)  // filed under its key
    | Gone(h: LRUHandle)  // evicted, erased, or released for good
    | Hit(id: Id, h: LRUHandle)
    | Miss(id: Id)

  type History = seq<Seen>

  function Refile(contents: Contents, e: Seen): Contents {
    if e.Placed? then contents[e.h.id := e.h]
    else if e.Gone? then Unfile(contents, e.h)
    else contents
  }

  /** The table after a history. */
  function Filing(contents: Contents, t: History): Contents {
    if t == [] then contents else Refile(Filing(contents, t[..|t| - 1]), t[|t| - 1])
  }

  predicate TruthfulAt(contents: Contents, e: Seen) {
    match e
    case Hit(id, h) => id in contents && contents[id] == h
    case Miss(id) => id !in contents
    case _ => true
  }

  /** Every lookup answered what the table held at that moment. */
  ghost predicate Truthful(contents: Contents, t: History) {
    forall p :: 0 <= p < |t| ==> TruthfulAt(Filing(contents, t[..p]), t[p])
  }

  lemma {:induction false} FilingConcat(contents: Contents, t: History, u: History)
    ensures Filing(contents, t + u) == Filing(Filing(contents, t), u)
  {
    if u == [] {
      assert t + u == t;
    } else {
      var last := |u| - 1;
      FilingConcat(contents, t, u[..last]);
      assert (t + u)[..|t + u| - 1] == t + u[..last];
    }
  }

  lemma TruthfulConcat(contents: Contents, t: History, u: History)
    requires Truthful(contents, t) && Truthful(Filing(contents, t), u)
    ensures Truthful(contents, t + u)
  {
    forall p | 0 <= p < |t + u| ensures TruthfulAt(Filing(contents, (t + u)[..p]), (t + u)[p]) {
      if p < |t| {
        assert (t + u)[..p] == t[..p];
      } else {
        assert (t + u)[..p] == t + u[..p - |t|];
        FilingConcat(contents, t, u[..p - |t|]);
        assert (t + u)[p] == u[p - |t|];
      }
    }
  }

  function Gones(s: Order): (t: History)
    ensures |t| == |s| && forall i :: 0 <= i < |s| ==> t[i] == Gone(s[i])
  {
    seq(|s|, i requires 0 <= i < |s| => Gone(s[i]))
  }

  lemma {:induction false} FilingGones(contents: Contents, s: Order)
    ensures Filing(contents, Gones(s)) == Unfiled(contents, s)
  {
    if s != [] {
      FilingGones(contents, s[..|s| - 1]);
      assert Gones(s)[..|s| - 1] == Gones(s[..|s| - 1]);
    }
  }

  lemma GonesAreTruthful(contents: Contents, s: Order)
    ensures Truthful(contents, Gones(s))
  {
  }

  lemma FilingOne(contents: Contents, e: Seen)
    ensures Filing(contents, [e]) == Refile(contents, e)
    ensures Truthful(contents, [e]) <==> TruthfulAt(contents, e)
    ensures Filing(contents, []) == contents && Truthful(contents, [])
  {
    assert [e][..0] == [];
    assert Filing(contents, [e][..0]) == contents;
    if TruthfulAt(contents, e) {
      assert Truthful(contents, [e]);
    } else {
      assert !TruthfulAt(Filing(contents, [e][..0]), [e][0]);
    }
  }

  /** At position q the handle h was placed, and since then neither has it left the
      table nor has another been placed under its key. */
  predicate PlacedLast(t: History, q: nat, h: LRUHandle) {
    && q < |t| && t[q] == Placed(h)
    && forall r :: q < r < |t| ==> t[r] != Gone(h) && !(t[r].Placed? && t[r].h.id == h.id)
  }

  /** The table maps a key to the handle placed last under it, as long as that has
      not left, and to nothing otherwise. */
  lemma {:induction false} FiledIsPlacedLast(t: History, h: LRUHandle)
    ensures IsFiled(Filing(map[], t), h) <==> exists q: nat :: PlacedLast(t, q, h)
    ensures forall id :: id in Filing(map[], t) ==> Filing(map[], t)[id].id == id
  {
    if t != [] {
      var last := |t| - 1;
      var before := t[..last];
      FiledIsPlacedLast(before, h);
      if IsFiled(Filing(map[], t), h) {
        if t[last] == Placed(h) {
          assert PlacedLast(t, last, h);
        } else {
          var q: nat :| PlacedLast(before, q, h);
          assert PlacedLast(t, q, h);
        }
      }
      if exists q: nat :: PlacedLast(t, q, h) {
        var q: nat :| PlacedLast(t, q, h);
        if q < last {
          assert PlacedLast(before, q, h);
        }
      }
    }
  }

  /** A hit answers with the handle placed last under the key, and a miss says that
      this handle, if there ever was one, has left. */
  lemma LookupsAreExact(t: History, p: nat, h: LRUHandle)
    requires Truthful(map[], t) && p < |t|
    ensures t[p].Hit? && t[p].h == h ==> h.id == t[p].id && exists q: nat :: PlacedLast(t[..p], q, h)
    ensures t[p].Miss? && t[p].id == h.id ==> !exists q: nat :: PlacedLast(t[..p], q, h)
  {
    FiledIsPlacedLast(t[..p], h);
    assert TruthfulAt(Filing(map[], t[..p]), t[p]);
  }
}
