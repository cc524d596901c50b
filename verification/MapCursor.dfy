/** A cursor over a sorted map: what every iterator of the system promises its
    user.

    A user key is represented by its rank under the user comparator, so the
    order on user keys is the order on integers. */
module MapCursor {

  datatype Option<+T> = None | Some(value: T)

  type UserKey = int
  type Value = string

  type Cursor = Option<UserKey>

  /** c is the first key of m that is at least `from`. */
  ghost predicate IsFirstFrom(m: map<UserKey, Value>, from: UserKey, c: Cursor) {
    match c
    case None => forall k :: k in m ==> k < from
    case Some(first) => first in m && from <= first && forall k :: k in m && from <= k ==> first <= k
  }

  /** c is the last key of m that is at most `to`. */
  ghost predicate IsLastUpTo(m: map<UserKey, Value>, to: UserKey, c: Cursor) {
    match c
    case None => forall k :: k in m ==> to < k
    case Some(last) => last in m && last <= to && forall k :: k in m && k <= to ==> k <= last
  }

  ghost function Pick<T>(s: set<T>): (x: T)
    requires s != {}
    ensures x in s
  {
    var x :| x in s;
    x
  }

  ghost function Least(s: set<int>): (r: int)
    requires s != {}
    ensures r in s && forall k :: k in s ==> r <= k
  {
    var x := Pick(s);
    if s == {x} then x
    else
      assert s - {x} != {} && s == (s - {x}) + {x};
      var y := Least(s - {x});
      if x < y then x else y
  }

  ghost function Greatest(s: set<int>): (r: int)
    requires s != {}
    ensures r in s && forall k :: k in s ==> k <= r
  {
    var x := Pick(s);
    if s == {x} then x
    else
      assert s - {x} != {} && s == (s - {x}) + {x};
      var y := Greatest(s - {x});
      if x > y then x else y
  }

  ghost function FirstFrom(m: map<UserKey, Value>, from: UserKey): (c: Cursor)
    ensures IsFirstFrom(m, from, c)
  {
    var s := set k | k in m && from <= k;
    assert forall k :: k in m && from <= k ==> k in s;
    if s == {} then None else Some(Least(s))
  }

  ghost function LastUpTo(m: map<UserKey, Value>, to: UserKey): (c: Cursor)
    ensures IsLastUpTo(m, to, c)
  {
    var s := set k | k in m && k <= to;
    assert forall k :: k in m && k <= to ==> k in s;
    if s == {} then None else Some(Greatest(s))
  }

  ghost function First(m: map<UserKey, Value>): (c: Cursor)
    ensures c.None? <==> m == map[]
    ensures c.Some? ==> IsFirstFrom(m, c.value, c)
  {
    if m.Keys == {} then None else Some(Least(m.Keys))
  }

  ghost function Last(m: map<UserKey, Value>): (c: Cursor)
    ensures c.None? <==> m == map[]
    ensures c.Some? ==> IsLastUpTo(m, c.value, c)
  {
    if m.Keys == {} then None else Some(Greatest(m.Keys))
  }

  datatype Op =
    | Seek(target: UserKey)
    | SeekForPrev(target: UserKey)
    | SeekToFirst
    | SeekToLast
    | Next
    | Prev

  /** One move of the map cursor. Next and Prev are for valid cursors only, so
      a cursor off the map stays off it until the next seek. */
  ghost function Move(m: map<UserKey, Value>, c: Cursor, op: Op): Cursor {
    match op
    case Seek(t) => FirstFrom(m, t)
    case SeekForPrev(t) => LastUpTo(m, t)
    case SeekToFirst => First(m)
    case SeekToLast => Last(m)
    case Next => if c.Some? then FirstFrom(m, c.value + 1) else None
    case Prev => if c.Some? then LastUpTo(m, c.value - 1) else None
  }

  /** Changing direction between two keys of the map is exact. */
  lemma ThereAndBack(m: map<UserKey, Value>, c: Cursor)
    requires c.Some? && c.value in m
    ensures var next := Move(m, c, Next); next.Some? ==> Move(m, next, Prev) == c
    ensures var prev := Move(m, c, Prev); prev.Some? ==> Move(m, prev, Next) == c
  {
    var next, prev := Move(m, c, Next), Move(m, c, Prev);
    if next.Some? { assert IsLastUpTo(m, next.value - 1, c); }
    if prev.Some? { assert IsFirstFrom(m, prev.value + 1, c); }
  }

  /** What an iterator shows its user. */
  type Shown = Option<(UserKey, Value)>

  ghost function Look(m: map<UserKey, Value>, c: Cursor): Shown {
    if c.Some? && c.value in m then Some((c.value, m[c.value])) else None
  }

  /** What a run of operations on the map cursor shows, one entry per operation. */
  ghost function Trace(m: map<UserKey, Value>, c: Cursor, ops: seq<Op>): seq<Shown>
    decreases |ops|
  {
    if ops == [] then []
    else
      var c' := Move(m, c, ops[0]);
      [Look(m, c')] + Trace(m, c', ops[1..])
  }
}
