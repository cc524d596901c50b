/** Release with forced erase reads the key of a handle that it no longer holds
    (cache/clock_cache.cc): which key that is, and which entry it erases. */
module ClockRelease {
  import opened ClockCache
  import opened ClockProof
  import opened ClockSteps
  import opened ClockSchedule

  /** Handle h stands for insertion b of this key, or that insertion has been recycled;
      it never stands for an earlier one. */
  predicate StandsFor(s: State, h: HandleId, id: CacheKey, b: nat) {
    && h < |s.handles| && s.handles[h].birth >= b
    && (b in s.recycled || (s.handles[h].birth == b && s.handles[h].id == id))
  }

  /** Only recycling takes the key from a handle. */
  lemma StandsOn(s: State, step: Step, h: HandleId, id: CacheKey, b: nat)
    requires Born(s) && Enabled(s, step) && StandsFor(s, h, id, b)
    ensures StandsFor(Do(s, step), h, id, b)
  {
    hide Do, Enabled;
    if step.Recycle? {
      RecycleRecords(s, step.t);
    } else if step.Grab? {
      GrabReuses(s, step.t, step.h);
    } else if Counts(step) {
      CountsLeave(s, step, h);
    } else if Moves(step) {
      MovesLeave(s, step, h);
    } else {
      OthersLeave(s, step);
    }
  }

  lemma {:induction false} StandsLong(s: State, steps: seq<Step>, s': State, h: HandleId, id: CacheKey, b: nat)
    requires Inv(s) && Leads(s, steps, s') && StandsFor(s, h, id, b)
    ensures StandsFor(s', h, id, b)
    decreases |steps|
  {
    hide Locks, Counted, Answered, Claimed, Tabled, Born, Charged, Do, Enabled, StandsFor;
    if steps != [] {
      var last := |steps| - 1;
      var p :| Leads(s, steps[..last], p) && Enabled(p, steps[last]) && s' == Do(p, steps[last]);
      LeadsInv(s, steps[..last], p);
      StandsLong(s, steps[..last], p, h, id, b);
      StandsOn(p, steps[last], h, id, b);
    }
  }

  /** A forced release that gives up its reference, without having to recycle the
      handle, goes on to read the key; the handle still stands for its insertion. */
  lemma DropGoesOn(s: State, t: ThreadId, r: RefId, s': State)
    requires Inv(s) && t in s.threads && s.threads[t] == Dropping(r, true) && r in s.held && s.held[r] < |s.handles|
    requires Enabled(s, Drop(t)) && s' == Do(s, Drop(t))
    ensures |s'.handles| == |s.handles| && t in s'.threads && s.held[r] !in s'.bin
    ensures s'.handles[s.held[r]].id == s.handles[s.held[r]].id && s'.handles[s.held[r]].birth == s.handles[s.held[r]].birth
    ensures s'.threads[t] == ReadKey(s.held[r]) || s'.threads[t] == MustRecycle(s.held[r])
  {
    hide Locks, Answered, Tabled, Born, Charged;
    HeldIsCounted(s, r);
  }

  /** Before it reads the key, a forced release may be overtaken. The handle then still
      stands for the same insertion, and the key is the one to erase, if and only if
      that insertion has not been recycled meanwhile. Otherwise the handle is in the bin
      or stands for a later insertion, and it is the key of that. */
  lemma ForcedEraseIsOwn(s: State, t: ThreadId, h: HandleId, steps: seq<Step>, s': State)
    requires Inv(s) && t in s.threads && s.threads[t] == ReadKey(h) && h < |s.handles| && h !in s.bin
    requires Leads(s, steps, s') && t in s'.threads && s'.threads[t] == ReadKey(h)
    ensures h < |s'.handles|
    ensures s'.handles[h].birth == s.handles[h].birth && h !in s'.bin <==> s.handles[h].birth !in s'.recycled
    ensures s.handles[h].birth !in s'.recycled ==> s'.handles[h].id == s.handles[h].id
    ensures s.handles[h].birth in s'.recycled ==> h in s'.bin || s'.handles[h].birth > s.handles[h].birth
  {
    hide Locks, Counted, Answered, Claimed, Tabled, Charged, Leads, Do, Enabled;
    LeadsInv(s, steps, s');
    StandsLong(s, steps, s', h, s.handles[h].id, s.handles[h].birth);
  }

  // ---- what a forced release takes out of the table --------------------------------

  /** The insertions that the table leads to. */
  function InTable(s: State): set<nat> {
    Births(s.handles, s.table)
  }

  function Births(handles: Handles, table: Table): set<nat> {
    set id | id in table && table[id] < |handles| :: handles[table[id]].birth
  }

  /** Thread t has released insertion b of this key through handle h and is on its way
      to erase a key: that one, unless the insertion has been recycled. */
  predicate OnItsWay(s: State, t: ThreadId, h: HandleId, id: CacheKey, b: nat) {
    && StandsFor(s, h, id, b)
    && t in s.threads
    && match s.threads[t]
       case ReadKey(g) => g == h
       case MustErase(k) => b in s.recycled || k == id
       case Erasing(k) => b in s.recycled || k == id
       case _ => false
  }

  /** Once it has given up its reference, thread t reads the key and locks; the others
      do what they like. */
  predicate GoesToErase(steps: seq<Step>, t: ThreadId) {
    forall i :: 0 <= i < |steps| && steps[i].t == t ==> steps[i].Read? || steps[i].Lock?
  }

  lemma GoesOn(s: State, step: Step, t: ThreadId, h: HandleId, id: CacheKey, b: nat)
    requires Born(s) && Enabled(s, step) && OnItsWay(s, t, h, id, b)
    requires step.t == t ==> step.Read? || step.Lock?
    ensures OnItsWay(Do(s, step), t, h, id, b)
  {
    hide Do, Enabled, Born;
    StandsOn(s, step, h, id, b);
    if step.t != t {
      OthersStay(s, step, t);
      if b in s.recycled { StaysRecycled(s, step, h, b); }
    } else if step.Read? {
      ReadIs(s, t);
    } else {
      LockIs(s, t);
    }
  }

  lemma {:induction false} GoesFar(s: State, steps: seq<Step>, s': State, t: ThreadId, h: HandleId, id: CacheKey, b: nat)
    requires Inv(s) && Leads(s, steps, s') && GoesToErase(steps, t) && OnItsWay(s, t, h, id, b)
    ensures OnItsWay(s', t, h, id, b)
    decreases |steps|
  {
    hide Locks, Counted, Answered, Claimed, Tabled, Born, Charged, Do, Enabled, OnItsWay;
    if steps != [] {
      var last := |steps| - 1;
      var p :| Leads(s, steps[..last], p) && Enabled(p, steps[last]) && s' == Do(p, steps[last]);
      LeadsInv(s, steps[..last], p);
      GoesFar(s, steps[..last], p, t, h, id, b);
      GoesOn(p, steps[last], t, h, id, b);
    }
  }

  /** With the mutex at an erase, exactly the handles in cache are in the table. */
  lemma ErasingSeesAll(s: State, t: ThreadId)
    requires Inv(s) && t in s.threads && s.threads[t].Erasing?
    ensures forall id :: id in s.table ==> var h := s.table[id]; h < |s.handles| && h !in s.bin && s.handles[h].id == id && s.handles[h].inCache
    ensures forall h :: 0 <= h < |s.handles| && s.handles[h].inCache ==> s.handles[h].id in s.table && s.table[s.handles[h].id] == h
  {
    hide Counted, Answered, Claimed, Born, Charged;
    assert Holder(s) == s.threads[t];
  }

  /** Different keys lead to different insertions. */
  lemma BirthsWithout(handles: Handles, table: Table, k: CacheKey)
    requires k in table
    requires forall id :: id in table ==> table[id] < |handles| && handles[table[id]].id == id
    requires forall g, h :: 0 <= g < h < |handles| ==> handles[g].birth != handles[h].birth
    ensures handles[table[k]].birth in Births(handles, table)
    ensures Births(handles, table - {k}) == Births(handles, table) - {handles[table[k]].birth}
  {
    var b := handles[table[k]].birth;
    forall x ensures x in Births(handles, table - {k}) <==> x in Births(handles, table) && x != b {
      if x in Births(handles, table) && x != b {
        var id :| id in table && table[id] < |handles| && handles[table[id]].birth == x;
        assert id in table - {k};
      }
    }
  }

  /** An erase takes out the insertion that the table has under the key, if any. */
  lemma EraseTakes(s: State, t: ThreadId, s': State)
    requires Inv(s) && Enabled(s, Erase(t)) && s' == Do(s, Erase(t))
    ensures t in s.threads && s.threads[t].Erasing?
    ensures var k := s.threads[t].id;
            if k in s.table then
              && s.table[k] < |s.handles| && s.handles[s.table[k]].birth in InTable(s)
              && InTable(s') == InTable(s) - {s.handles[s.table[k]].birth}
            else InTable(s') == InTable(s)
  {
    hide Counted, Answered, Claimed, Charged, Tabled, Do, Enabled, Births;
    EraseIs(s, t);
    ErasingSeesAll(s, t);
    var k := s.threads[t].id;
    if k in s.table {
      BirthsWithout(s.handles, s.table, k);
    }
  }

  /** The table leads to insertion b if and only if the handle that stood for it still
      does and is in cache. */
  lemma StillInTable(s: State, t: ThreadId, h: HandleId, id: CacheKey, b: nat)
    requires Inv(s) && OnItsWay(s, t, h, id, b) && s.threads[t].Erasing?
    ensures b in InTable(s) <==> s.handles[h].birth == b && s.handles[h].inCache
    ensures b in InTable(s) ==> s.threads[t].id in s.table && s.table[s.threads[t].id] == h
  {
    hide Counted, Answered, Tabled, Charged;
    ErasingSeesAll(s, t);
    if b in InTable(s) {
      var k :| k in s.table && s.table[k] < |s.handles| && s.handles[s.table[k]].birth == b;
      assert b !in s.recycled;
      assert s.table[k] == h && k == id;
    }
    if s.handles[h].birth == b && s.handles[h].inCache {
      assert s.handles[h].id in s.table && s.table[s.handles[h].id] == h;
    }
  }

  /** Thread t gives up its reference to insertion b, with forced erase, in state s.
      Whatever the other threads do until it erases, in state e: it takes b out of the
      table if and only if the handle still stands for b and is in cache; nothing if and
      only if the table does not have the key that was read; otherwise another insertion.
      In no case is b left in the table. */
  lemma ForcedEraseTakes(s: State, t: ThreadId, r: RefId, d: State, steps: seq<Step>, e: State, e': State)
    requires Inv(s) && t in s.threads && s.threads[t] == Dropping(r, true) && r in s.held && s.held[r] < |s.handles|
    requires Enabled(s, Drop(t)) && d == Do(s, Drop(t)) && t in d.threads && d.threads[t].ReadKey?
    requires Leads(d, steps, e) && GoesToErase(steps, t)
    requires Enabled(e, Erase(t)) && e' == Do(e, Erase(t))
    ensures var h, b := s.held[r], s.handles[s.held[r]].birth;
            && h < |e.handles| && t in e.threads && e.threads[t].Erasing?
            && (b in e.recycled || e.threads[t].id == s.handles[h].id)
            && InTable(e') <= InTable(e) && b !in InTable(e')
            && (b in InTable(e) <==> e.handles[h].birth == b && e.handles[h].inCache)
            && (InTable(e') == InTable(e) <==> e.threads[t].id !in e.table)
            && ((exists x :: x != b && x in InTable(e) && InTable(e') == InTable(e) - {x}) <==>
                e.threads[t].id in e.table && !(e.handles[h].birth == b && e.handles[h].inCache))
  {
    hide Locks, Counted, Answered, Claimed, Tabled, Born, Charged, Do, Enabled, Leads, InTable;
    var h := s.held[r];
    var id, b := s.handles[h].id, s.handles[h].birth;
    DropGoesOn(s, t, r, d);
    StepKeepsInv(s, Drop(t));
    LeadsInv(d, steps, e);
    EraseTakes(e, t, e');
    GoesFar(d, steps, e, t, h, id, b);
    StillInTable(e, t, h, id, b);
  }

  // ---- schedules in which another entry is erased ----------------------------------

  /** Thread 1 is about to read the key of handle 0, which it has released, while that
      stands for an entry of key b that thread 2 has inserted meanwhile. */
  lemma Overtaken(a: CacheKey, b: CacheKey) returns (steps: seq<Step>, s: State)
    requires a != b
    ensures Plays(steps, s, From({a})) && s.threads == map[1 := ReadKey(0), 2 := Idle] && s.mutex == None
    ensures b in s.table && 0 < |s.handles| && s.handles[0].id == b
  {
    hide Plays, Do, Enabled;
    var r := RefId(0);
    steps, s := PlayStart(From({a}));
    steps, s := PlayInsert(steps, s, From({a}), 1, Insertion(a, 1, true), 0, r);
    steps, s := PlayDrop(steps, s, From({a}), 1, r);
    steps, s := PlayErase(steps, s, From({a}), 2, a);
    steps, s := PlayInsert(steps, s, From({a}), 2, Insertion(b, 1, false), 0, r);
  }

  /** Thread 1 releases its reference to the entry of key a with forced erase. Before
      it reads the key, thread 2 erases that entry and inserts key b, which reuses the
      handle. So thread 1 takes b out of the table, which nobody asked for. */
  lemma AnotherEntryIsErased(a: CacheKey, b: CacheKey) returns (steps: seq<Step>, s: State, s': State)
    requires a != b
    ensures Reachable(s, steps) && ErasesOnly(steps, {a})
    ensures b in s.table && Enabled(s, Erase(1)) && s' == Do(s, Erase(1)) && b !in s'.table
  {
    hide Plays, Do, Enabled;
    steps, s := Overtaken(a, b);
    CanRead(s, 1);
    ReadIs(s, 1);
    steps, s := PlayOn(steps, s, From({a}), Read(1));
    CanLock(s, 1);
    steps, s := PlayOn(steps, s, From({a}), Lock(1));
    CanErase(s, 1);
    EraseIs(s, 1);
    s' := Do(s, Erase(1));
    PlaysIsReachable(steps, s, {a});
  }

  /** Thread 1 has two references to insertion 0, of key a. Thread 2 inserts a again,
      and thread 1 gives up one of its references with force. */
  lemma Doubled(a: CacheKey) returns (steps: seq<Step>, s: State)
    ensures Plays(steps, s, From({})) && s.threads == map[1 := ReadKey(0), 2 := Idle] && s.mutex == None && s.recycled == []
    ensures s.table == map[a := 1] && |s.handles| == 2
    ensures s.handles[0].id == a && s.handles[0].birth == 0 && s.handles[0].refs == 1 && s.handles[1].birth == 1
  {
    hide Plays, Do, Enabled;
    var r, r' := RefId(0), RefId(1);
    steps, s := PlayStart(From({}));
    steps, s := PlayInsert(steps, s, From({}), 1, Insertion(a, 1, true), 0, r);
    AgainIs(s, 1, r, r');
    steps, s := PlayOn(steps, s, From({}), Again(1, r, r'));
    steps, s := PlayOverwrite(steps, s, From({}), 2, Insertion(a, 1, false), 1, RefId(2), 0);
    steps, s := PlayDrop(steps, s, From({}), 1, r);
  }

  /** The key that is read may be the right one, and its entry another: here the handle
      still stands for insertion 0, nothing has been recycled and nobody asks for an
      erase, and yet the forced release takes insertion 1 out of the table. */
  lemma LaterEntryIsErased(a: CacheKey) returns (steps: seq<Step>, s: State, s': State)
    ensures Reachable(s, steps) && ErasesOnly(steps, {}) && s.recycled == []
    ensures |s.handles| == 2 && s.handles[0].id == a && s.handles[0].birth == 0 && s.handles[0].refs == 1
    ensures Enabled(s, Erase(1)) && s' == Do(s, Erase(1)) && InTable(s) == {1} && InTable(s') == {}
  {
    hide Plays, Do, Enabled;
    steps, s := Doubled(a);
    CanRead(s, 1);
    ReadIs(s, 1);
    steps, s := PlayOn(steps, s, From({}), Read(1));
    CanLock(s, 1);
    steps, s := PlayOn(steps, s, From({}), Lock(1));
    CanErase(s, 1);
    EraseIs(s, 1);
    s' := Do(s, Erase(1));
    PlaysIsReachable(steps, s, {});
    assert s.table[a] == 1;
  }
}
