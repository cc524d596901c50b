/** What the calls on a CLOCK shard come to: a thread left alone, from any state in which
    the mutex is free, and a lookup among other threads. */
module ClockCalls {
  import opened ClockCache
  import opened ClockProof
  import opened ClockSteps
  import opened ClockSchedule
  import opened ClockPinned
  import opened ClockLate
  import opened ClockRelease

  /** Thread t alone, from s on. */
  function Alone(s: State, t: ThreadId): Rules {
    Rules(s, {t}, {}, true)
  }

  /** With the mutex free, the table leads to exactly the handles in cache. */
  lemma FreeSeesAll(s: State)
    requires Inv(s) && s.mutex == None
    ensures forall id :: id in s.table ==> var h := s.table[id]; h < |s.handles| && h !in s.bin && s.handles[h].id == id && s.handles[h].inCache
    ensures forall h :: 0 <= h < |s.handles| && s.handles[h].inCache ==> s.handles[h].id in s.table && s.table[s.handles[h].id] == h
    ensures forall h :: h in s.bin ==> h < |s.handles|
  {
    hide Counted, Answered, Born, Charged, Locks;
  }

  lemma FiledIsThere(s: State, id: CacheKey)
    requires Inv(s) && s.mutex == None && id in s.table
    ensures var h := s.table[id];
            h < |s.handles| && h !in s.bin && s.handles[h].id == id && s.handles[h].inCache && s.handles[h].refs >= 0
  {
    hide Answered, Born, Charged, Locks;
  }

  // ---- Lookup --------------------------------------------------------------------------

  lemma FindIs(s: State, t: ThreadId, id: CacheKey)
    requires t in s.threads && s.threads[t] == Idle && id in s.table
    ensures Enabled(s, Find(t, id)) && Do(s, Find(t, id)) == Go(s, t, Found(id, s.table[id]))
  {
  }

  lemma RefEnabled(s: State, t: ThreadId, r: RefId)
    requires t in s.threads && s.threads[t].Found? && s.threads[t].h < |s.handles| && r !in s.held && r !in s.answers
    ensures Enabled(s, Ref(t, r))
  {
  }

  /** A lookup of a key that is in the table finds it, if nobody interferes. */
  lemma LookupAlone(s: State, t: ThreadId, id: CacheKey, r: RefId) returns (s': State)
    requires Inv(s) && s.mutex == None && t in s.threads && s.threads[t] == Idle && id in s.table && r !in s.held && r !in s.answers
    ensures Leads(s, [Find(t, id), Ref(t, r), ClockCache.Compare(t)], s') && Inv(s')
    ensures s'.threads == s.threads && s'.mutex == None && s'.table == s.table
    ensures var h := s.table[id];
            && h < |s.handles| && s'.handles == s.handles[h := s.handles[h].(refs := s.handles[h].refs + 1)]
            && s'.held == s.held[r := h] && s'.answers == s.answers[r := (id, s.handles[h].birth)]
  {
    hide Inv, Do, Enabled, Leads;
    FreeSeesAll(s);
    LeadsNowhere(s);
    FindIs(s, t, id);
    LeadsMore(s, [], s, Find(t, id));
    var p := Do(s, Find(t, id));
    RefEnabled(p, t, r);
    RefIs(p, t, r);
    LeadsMore(s, [] + [Find(t, id)], p, Ref(t, r));
    var q := Do(p, Ref(t, r));
    CompareIs(q, t);
    LeadsMore(s, [] + [Find(t, id)] + [Ref(t, r)], q, ClockCache.Compare(t));
    s' := Do(q, ClockCache.Compare(t));
    assert [] + [Find(t, id)] + [Ref(t, r)] + [ClockCache.Compare(t)] == [Find(t, id), Ref(t, r), ClockCache.Compare(t)];
    LeadsInv(s, [Find(t, id), Ref(t, r), ClockCache.Compare(t)], s');
  }

  lemma LeadsNowhere(s: State)
    ensures Leads(s, [], s)
  {
  }

  /** The other threads move, and t does not. */
  predicate Others(steps: seq<Step>, t: ThreadId) {
    forall i :: 0 <= i < |steps| ==> steps[i].t != t
  }

  lemma {:induction false} FoundStays(s: State, steps: seq<Step>, s': State, t: ThreadId, h: HandleId)
    requires Inv(s) && Leads(s, steps, s') && Others(steps, t) && t in s.threads && h < |s.handles|
    ensures Inv(s') && t in s'.threads && s'.threads[t] == s.threads[t] && h < |s'.handles|
    decreases |steps|
  {
    hide Inv, Do, Enabled;
    if steps != [] {
      var last := |steps| - 1;
      var p :| Leads(s, steps[..last], p) && Enabled(p, steps[last]) && s' == Do(p, steps[last]);
      FoundStays(s, steps[..last], p, t, h);
      StepKeepsInv(p, steps[last]);
      InvIsBorn(p);
      HandleStays(p, steps[last], h);
      OthersStay(p, steps[last], t);
    }
  }

  lemma InvIsBorn(s: State)
    requires Inv(s)
    ensures Born(s) && Answered(s)
  {
  }

  lemma HeldIsNotBinned(s: State, r: RefId)
    requires Inv(s) && r in s.held
    ensures s.held[r] < |s.handles| && s.held[r] !in s.bin
  {
    hide Locks, Answered, Tabled, Born, Charged;
    HeldIsCounted(s, r);
  }

  /** A handle keeps its key while somebody has a reference to it. */
  lemma KeyStays(s: State, step: Step, t: ThreadId, r: RefId)
    requires Inv(s) && Enabled(s, step) && step.t != t
    requires t in s.threads && s.threads[t].Reffed? && s.threads[t].r == r && r in s.held && s.held[r] < |s.handles|
    ensures var h, s' := s.held[r], Do(s, step);
            && Inv(s') && t in s'.threads && s'.threads[t] == s.threads[t] && r in s'.held && s'.held[r] == h && h < |s'.handles|
            && s'.handles[h].id == s.handles[h].id && s'.handles[h].birth == s.handles[h].birth
  {
    hide Inv, Do, Enabled, Born, Answered;
    var h, s' := s.held[r], Do(s, step);
    InvIsBorn(s);
    StepKeepsInv(s, step);
    OthersStay(s, step, t);
    HeldStays(s, step, t, r);
    HeldIsNotBinned(s, r);
    HandleStays(s, step, h);
    StandsOn(s, step, h, s.handles[h].id, s.handles[h].birth);
    HeldIsNotBinned(s', r);
    NotRecycled(s', h);
  }

  lemma NotRecycled(s: State, h: HandleId)
    requires Inv(s) && h < |s.handles| && h !in s.bin
    ensures s.handles[h].birth !in s.recycled
  {
    hide Locks, Counted, Answered, Claimed, Tabled, Charged;
  }

  lemma {:induction false} ReffedStays(s: State, steps: seq<Step>, s': State, t: ThreadId, r: RefId)
    requires Inv(s) && Leads(s, steps, s') && Others(steps, t)
    requires t in s.threads && s.threads[t].Reffed? && s.threads[t].r == r && r in s.held && s.held[r] < |s.handles|
    ensures Inv(s') && t in s'.threads && s'.threads[t] == s.threads[t] && r in s'.held && s'.held[r] == s.held[r] < |s'.handles|
    ensures s'.handles[s.held[r]].id == s.handles[s.held[r]].id && s'.handles[s.held[r]].birth == s.handles[s.held[r]].birth
    decreases |steps|
  {
    hide Inv, Do, Enabled;
    if steps != [] {
      var last := |steps| - 1;
      var p :| Leads(s, steps[..last], p) && Enabled(p, steps[last]) && s' == Do(p, steps[last]);
      ReffedStays(s, steps[..last], p, t, r);
      KeyStays(p, steps[last], t, r);
    }
  }

  lemma CompareDoes(s: State, t: ThreadId)
    requires Enabled(s, ClockCache.Compare(t))
    ensures t in s.threads && s.threads[t].Reffed? && s.threads[t].r in s.held && s.held[s.threads[t].r] < |s.handles|
    ensures var pc := s.threads[t];
            var x := s.handles[s.held[pc.r]];
            Do(s, ClockCache.Compare(t)) ==
            if x.id == pc.id then Go(s, t, Idle).(answers := s.answers[pc.r := (pc.id, x.birth)]) else Go(s, t, Dropping(pc.r, false))
  {
  }

  /** A lookup among other threads: they move between Find and Ref, from d to p, and
      between Ref and Compare, from p' to q. It misses at Ref, with no reference taken,
      if and only if the handle that the table gave is then out of cache. It misses at
      Compare if and only if, back at Ref, the handle stood for another key. Otherwise it
      returns the insertion that the handle stood for at Ref. */
  lemma LookupIsDecidedAtRef(s: State, t: ThreadId, id: CacheKey, r: RefId, before: seq<Step>, p: State, after: seq<Step>, q: State)
    requires Inv(s) && s.mutex == None && Enabled(s, Find(t, id))
    requires Leads(Do(s, Find(t, id)), before, p) && Others(before, t) && Enabled(p, Ref(t, r))
    ensures id in s.table && s.table[id] < |p.handles|
    ensures var h, p' := s.table[id], Do(p, Ref(t, r));
            var x := p.handles[h];
            && t in p'.threads && p'.threads[t] == (if x.inCache then Reffed(id, r) else Idle)
            && p'.held == (if x.inCache then p.held[r := h] else p.held) && p'.answers == p.answers
    ensures p.handles[s.table[id]].inCache && Leads(Do(p, Ref(t, r)), after, q) && Others(after, t) && Enabled(q, ClockCache.Compare(t)) ==>
              var h, q' := s.table[id], Do(q, ClockCache.Compare(t));
              var x := p.handles[h];
              t in q'.threads &&
              if x.id == id then q'.threads[t] == Idle && r in q'.answers && q'.answers[r] == (id, x.birth) && r in q'.held && q'.held[r] == h
              else q'.threads[t] == Dropping(r, false) && q'.answers == q.answers
  {
    hide Inv, Do, Enabled, Leads;
    FindMeans(s, t, id);
    FreeSeesAll(s);
    FindIs(s, t, id);
    StepKeepsInv(s, Find(t, id));
    FoundStays(Do(s, Find(t, id)), before, p, t, s.table[id]);
    RefIs(p, t, r);
    StepKeepsInv(p, Ref(t, r));
    var p' := Do(p, Ref(t, r));
    if p.handles[s.table[id]].inCache && Leads(p', after, q) && Others(after, t) && Enabled(q, ClockCache.Compare(t)) {
      ReffedStays(p', after, q, t, r);
      CompareDoes(q, t);
    }
  }

  lemma FindMeans(s: State, t: ThreadId, id: CacheKey)
    requires Enabled(s, Find(t, id))
    ensures t in s.threads && s.threads[t] == Idle && id in s.table
  {
  }

  // ---- Erase ----------------------------------------------------------------------------

  /** Handle g is out of cache; if nobody has a reference to it, it has been recycled. */
  predicate TakenOut(s: State, s': State, g: HandleId) {
    && g < |s.handles| == |s'.handles| && !s'.handles[g].inCache && s'.handles[g].refs == s.handles[g].refs
    && s'.bin == (if s.handles[g].refs == 0 then s.bin + {g} else s.bin)
    && s'.recycled == (if s.handles[g].refs == 0 then s.recycled + [s.handles[g].birth] else s.recycled)
    && s'.usage == (if s.handles[g].refs == 0 then s.usage - s.handles[g].total else s.usage)
    && forall h :: 0 <= h < |s.handles| && h != g ==> s'.handles[h] == s.handles[h]
  }

  lemma RecycleDoes(s: State, t: ThreadId, g: HandleId, next: Pc)
    requires t in s.threads && s.threads[t] == Recycling(g, next) && g < |s.handles|
    ensures Enabled(s, Recycle(t))
    ensures var x := s.handles[g];
            Do(s, Recycle(t)) == Go(Put(s, g, x.(id := x.id.(key := ""))), t, next)
                                 .(bin := s.bin + {g}, usage := s.usage - x.total, recycled := s.recycled + [x.birth])
  {
  }

  lemma TakeOut(steps: seq<Step>, s: State, rules: Rules, t: ThreadId, g: HandleId, next: Pc) returns (steps': seq<Step>, s': State)
    requires Plays(steps, s, rules) && t in rules.movers && t in s.threads && s.threads[t] == Unsetting(g, next)
    requires g < |s.handles| && s.handles[g].inCache && s.handles[g].refs >= 0
    ensures Plays(steps', s', rules) && s'.threads == s.threads[t := next] && s'.mutex == s.mutex && s'.table == s.table && TakenOut(s, s', g)
    ensures s'.held == s.held && s'.answers == s.answers && s'.inserted == s.inserted
  {
    hide Plays, Do, Enabled;
    UnsetEnabled(s, t);
    UnsetIs(s, t);
    steps', s' := PlayOn(steps, s, rules, Unset(t));
    if s.handles[g].refs == 0 {
      RecycleDoes(s', t, g, next);
      steps', s' := PlayOn(steps', s', rules, Recycle(t));
    }
  }

  /** Nothing has been taken out. */
  predicate Untouched(s: State, s': State) {
    s'.handles == s.handles && s'.bin == s.bin && s'.recycled == s.recycled && s'.usage == s.usage
  }

  predicate Erased(s: State, s': State, id: CacheKey) {
    && s'.table == s.table - {id}
    && if id in s.table then TakenOut(s, s', s.table[id]) else Untouched(s, s')
  }

  lemma EraseLocked(steps: seq<Step>, s: State, rules: Rules, t: ThreadId, id: CacheKey) returns (steps': seq<Step>, s': State)
    requires Plays(steps, s, rules) && t in rules.movers && t in s.threads && s.threads[t] == Erasing(id)
    requires id in s.table ==> s.table[id] < |s.handles| && s.handles[s.table[id]].inCache && s.handles[s.table[id]].refs >= 0
    ensures Plays(steps', s', rules) && s'.mutex == s.mutex && s'.threads == s.threads[t := Unlocking] && Erased(s, s', id)
    ensures s'.held == s.held && s'.answers == s.answers && s'.inserted == s.inserted
  {
    hide Plays, Do, Enabled, TakenOut;
    CanErase(s, t);
    EraseIs(s, t);
    var p;
    steps', p := PlayOn(steps, s, rules, Erase(t));
    if id in s.table {
      steps', s' := TakeOut(steps', p, rules, t, s.table[id], Unlocking);
      TakenOutOf(s, p, s', s.table[id]);
    } else {
      s' := p;
      assert s.table - {id} == s.table;
    }
  }

  /** An erase under way, left alone: the key is out of the table, its handle out of cache. */
  lemma EraseFrom(steps: seq<Step>, s: State, rules: Rules, t: ThreadId, id: CacheKey) returns (steps': seq<Step>, s': State)
    requires Plays(steps, s, rules) && t in rules.movers && Inv(s) && s.mutex == None && t in s.threads && s.threads[t] == MustErase(id)
    ensures Plays(steps', s', rules) && s'.mutex == None && s'.threads == s.threads[t := Idle] && Erased(s, s', id)
    ensures s'.held == s.held && s'.answers == s.answers && s'.inserted == s.inserted
  {
    hide Plays, Do, Enabled, Inv, Erased;
    if id in s.table {
      FiledIsThere(s, id);
    }
    CanLock(s, t);
    var p, q;
    steps', p := PlayOn(steps, s, rules, Lock(t));
    steps', q := EraseLocked(steps', p, rules, t, id);
    UnlockIs(q, t);
    steps', s' := PlayOn(steps', q, rules, Unlock(t));
    ErasedSame(s, p, q, s', id);
  }

  lemma ErasedSame(s: State, p: State, q: State, s': State, id: CacheKey)
    requires Erased(p, q, id)
    requires p.handles == s.handles && p.table == s.table && p.bin == s.bin && p.recycled == s.recycled && p.usage == s.usage
    requires q.handles == s'.handles && q.table == s'.table && q.bin == s'.bin && q.recycled == s'.recycled && q.usage == s'.usage
    ensures Erased(s, s', id)
  {
  }

  lemma TakenOutOf(s: State, p: State, s': State, g: HandleId)
    requires TakenOut(p, s', g) && p.handles == s.handles && p.bin == s.bin && p.recycled == s.recycled && p.usage == s.usage
    ensures TakenOut(s, s', g)
  {
  }

  lemma RefsOk(s: State, h: HandleId)
    requires Inv(s) && h < |s.handles|
    ensures s.handles[h].refs >= 0
  {
    hide Locks, Answered, Claimed, Tabled, Born, Charged;
  }

  /** Erase left alone. */
  lemma EraseAlone(s: State, t: ThreadId, id: CacheKey) returns (steps: seq<Step>, s': State)
    requires Inv(s) && s.mutex == None && t in s.threads && s.threads[t] == Idle
    ensures Leads(s, steps, s') && Inv(s') && (forall i :: 0 <= i < |steps| ==> steps[i].t == t)
    ensures s'.mutex == None && s'.threads == s.threads && s'.held == s.held && s'.answers == s.answers && Erased(s, s', id)
  {
    hide Do, Enabled, Inv, Leads;
    var rules := Rules(s, {t}, {id}, true);
    LeadsNowhere(s);
    CanCall(s, t, MustErase(id));
    StepKeepsInv(s, Call(t, MustErase(id)));
    steps, s' := PlayOn([], s, rules, Call(t, MustErase(id)));
    steps, s' := EraseFrom(steps, s', rules, t, id);
    LeadsInv(s, steps, s');
    assert forall i :: 0 <= i < |steps| ==> Permits(rules, steps[i]);
  }

  // ---- Insert ----------------------------------------------------------------------------

  /** Handle h stands for the new insertion. */
  predicate NewIn(s: State, s': State, ins: Insertion, h: HandleId, r: RefId) {
    && h < |s'.handles| && s'.handles[h] == Handle(ins.id, ins.total, s.inserted, true, false, if ins.hold then 1 else 0)
    && (h in s.bin || h == |s.handles|) && h !in s'.bin
    && s'.table == s.table[ins.id := h] && s'.inserted == s.inserted + 1
    && s'.held == (if ins.hold then s.held[r := h] else s.held)
    && s'.answers == (if ins.hold then s.answers[r := (ins.id, s.inserted)] else s.answers)
  }

  /** An insertion that has not been placed yet, with the entry under its key, if any,
      taken out of the table. */
  lemma StoreAndReplace(steps: seq<Step>, s: State, rules: Rules, t: ThreadId, ins: Insertion, h: HandleId, r: RefId)
    returns (steps': seq<Step>, s': State)
    requires Plays(steps, s, rules) && t in rules.movers && Inv(s) && s.mutex == None && t in s.threads && s.threads[t] == Idle
    requires if s.bin == {} then h == |s.handles| else h in s.bin && h < |s.handles|
    requires r !in s.held && r !in s.answers
    ensures Plays(steps', s', rules) && s'.mutex == Some(t) && Spares(s, s', h) && s'.inserted == s.inserted + 1
    ensures if ins.id in s.table then s'.table == s.table - {ins.id} && s'.threads == s.threads[t := Unsetting(s.table[ins.id], Placing(ins, h))]
            else s'.table == s.table && s'.threads == s.threads[t := Placing(ins, h)]
    ensures s'.handles[h] == Handle(ins.id, ins.total, s.inserted, true, false, if ins.hold then 1 else 0)
    ensures s'.held == (if ins.hold then s.held[r := h] else s.held)
    ensures s'.answers == (if ins.hold then s.answers[r := (ins.id, s.inserted)] else s.answers)
  {
    hide Plays, Do, Enabled, Inv, Spares;
    var p, q;
    steps', p := PlayGrab(steps, s, rules, t, ins, h);
    SparesMeans(s, p, h);
    steps', q := PlayStore(steps', p, rules, t, ins, h, r);
    SparesTwice(s, p, q, h);
    CanReplace(q, t);
    ReplaceIs(q, t);
    steps', s' := PlayOn(steps', q, rules, Replace(t));
    SparesSame(s, q, s', h);
  }

  lemma SparesMeans(s: State, s': State, h: HandleId)
    requires Spares(s, s', h)
    ensures h < |s'.handles| && h !in s'.bin
  {
  }

  lemma SparesTwice(s: State, p: State, q: State, h: HandleId)
    requires Spares(s, p, h) && Spares(p, q, h)
    ensures Spares(s, q, h)
  {
  }

  lemma SparesSame(s: State, p: State, q: State, h: HandleId)
    requires Spares(s, p, h) && q.handles == p.handles && q.bin == p.bin && q.recycled == p.recycled
    ensures Spares(s, q, h)
  {
  }

  /** What an insertion does to the rest: the handle of an older insertion under the key
      is out of cache, and in the bin if nobody has a reference to it. */
  predicate Rest(s: State, s': State, id: CacheKey, h: HandleId) {
    && |s'.handles| >= |s.handles|
    && (forall g :: 0 <= g < |s.handles| && g != h && (id in s.table ==> g != s.table[id]) ==> s'.handles[g] == s.handles[g])
    && if id in s.table && s.table[id] < |s.handles| then
         var g := s.table[id];
         && !s'.handles[g].inCache && s'.handles[g].refs == s.handles[g].refs
         && s'.bin == s.bin - {h} + (if s.handles[g].refs == 0 then {g} else {})
         && s'.recycled == s.recycled + if s.handles[g].refs == 0 then [s.handles[g].birth] else []
       else
         s'.recycled == s.recycled && s'.bin == s.bin - {h}
  }

  lemma InsertOver(s: State, t: ThreadId, ins: Insertion, h: HandleId, r: RefId) returns (steps: seq<Step>, s': State)
    requires Inv(s) && s.mutex == None && t in s.threads && s.threads[t] == Idle
    requires if s.bin == {} then h == |s.handles| else h in s.bin && h < |s.handles|
    requires r !in s.held && r !in s.answers && ins.id in s.table
    ensures Plays(steps, s', Alone(s, t)) && s'.mutex == None && s'.threads == s.threads && NewIn(s, s', ins, h, r) && Rest(s, s', ins.id, h)
  {
    hide Do, Enabled, Inv, Plays, Spares, TakenOut, Rest, NewIn;
    var rules := Alone(s, t);
    PlaysNothing(s, t);
    FiledIsThere(s, ins.id);
    var g := s.table[ins.id];
    var p, q;
    steps, p := StoreAndReplace([], s, rules, t, ins, h, r);
    SparesOther(s, p, h, g);
    steps, q := TakeOut(steps, p, rules, t, g, Placing(ins, h));
    steps, s' := PlayPlace(steps, q, rules, t, ins, h);
    OverRest(s, p, q, s', ins.id, h);
    assert s.table[ins.id := h] == (s.table - {ins.id})[ins.id := h];
    IsNewIn(s, s', ins, h, r);
  }

  lemma IsNewIn(s: State, s': State, ins: Insertion, h: HandleId, r: RefId)
    requires h < |s'.handles| && s'.handles[h] == Handle(ins.id, ins.total, s.inserted, true, false, if ins.hold then 1 else 0)
    requires (h in s.bin || h == |s.handles|) && h !in s'.bin && s'.table == s.table[ins.id := h] && s'.inserted == s.inserted + 1
    requires s'.held == (if ins.hold then s.held[r := h] else s.held)
    requires s'.answers == (if ins.hold then s.answers[r := (ins.id, s.inserted)] else s.answers)
    ensures NewIn(s, s', ins, h, r)
  {
  }

  lemma SparesOther(s: State, s': State, h: HandleId, g: HandleId)
    requires Spares(s, s', h) && g < |s.handles| && g != h
    ensures g < |s'.handles| && s'.handles[g] == s.handles[g]
  {
  }

  lemma OverRest(s: State, p: State, q: State, s': State, id: CacheKey, h: HandleId)
    requires id in s.table && s.table[id] < |s.handles| && s.table[id] != h && s.table[id] !in s.bin
    requires Spares(s, p, h) && TakenOut(p, q, s.table[id]) && s'.handles == q.handles && s'.bin == q.bin && s'.recycled == q.recycled
    ensures Rest(s, s', id, h) && h < |s'.handles| && h < |p.handles| && s'.handles[h] == p.handles[h] && h !in s'.bin
  {
  }

  lemma PlaysNothing(s: State, t: ThreadId)
    ensures Plays([], s, Alone(s, t))
  {
  }

  lemma InsertNew(s: State, t: ThreadId, ins: Insertion, h: HandleId, r: RefId) returns (steps: seq<Step>, s': State)
    requires Inv(s) && s.mutex == None && t in s.threads && s.threads[t] == Idle
    requires if s.bin == {} then h == |s.handles| else h in s.bin && h < |s.handles|
    requires r !in s.held && r !in s.answers && ins.id !in s.table
    ensures Plays(steps, s', Alone(s, t)) && s'.mutex == None && s'.threads == s.threads && NewIn(s, s', ins, h, r) && Rest(s, s', ins.id, h)
  {
    hide Do, Enabled, Inv, Plays;
    PlaysNothing(s, t);
    steps, s' := PlayInsert([], s, Alone(s, t), t, ins, h, r);
  }

  /** Insert left alone, once it is clear that there is room: the key leads to the new
      insertion, the older one under the key is out, and nothing else changes. */
  lemma InsertAlone(s: State, t: ThreadId, ins: Insertion, h: HandleId, r: RefId) returns (steps: seq<Step>, s': State)
    requires Inv(s) && s.mutex == None && t in s.threads && s.threads[t] == Idle
    requires if s.bin == {} then h == |s.handles| else h in s.bin
    requires r !in s.held && r !in s.answers
    ensures Leads(s, steps, s') && Inv(s') && (forall i :: 0 <= i < |steps| ==> steps[i].t == t)
    ensures s'.mutex == None && s'.threads == s.threads && NewIn(s, s', ins, h, r) && Rest(s, s', ins.id, h)
  {
    hide Inv, Leads, NewIn, Rest;
    FreeSeesAll(s);
    if ins.id in s.table {
      steps, s' := InsertOver(s, t, ins, h, r);
    } else {
      steps, s' := InsertNew(s, t, ins, h, r);
    }
    LeadsInv(s, steps, s');
    assert forall i :: 0 <= i < |steps| ==> Permits(Alone(s, t), steps[i]);
  }

  // ---- Release ----------------------------------------------------------------------------

  lemma ReleaseDoes(s: State, t: ThreadId, r: RefId, force: bool)
    requires t in s.threads && s.threads[t] == Idle && r in s.answers
    ensures Enabled(s, Release(t, r, force))
    ensures Do(s, Release(t, r, force)) == Go(s, t, Marking(r, force)).(answers := s.answers - {r})
  {
  }

  lemma DropCan(s: State, t: ThreadId)
    requires t in s.threads && s.threads[t].Dropping? && s.threads[t].r in s.held && s.held[s.threads[t].r] < |s.handles|
    ensures Enabled(s, Drop(t))
  {
  }

  /** The reference is gone, and the handle marked as used; it has to be recycled if this
      was the last reference and it is out of cache. */
  lemma GiveUp(s: State, t: ThreadId, r: RefId, force: bool) returns (steps: seq<Step>, s': State)
    requires Inv(s) && t in s.threads && s.threads[t] == Idle && r in s.answers
    ensures r in s.held && s.held[r] < |s.handles| && s.handles[s.held[r]].refs >= 1
    ensures Plays(steps, s', Alone(s, t)) && s'.mutex == s.mutex
    ensures var h := s.held[r];
            var x := s.handles[h];
            && s'.threads == s.threads[t := if x.refs == 1 && !x.inCache then MustRecycle(h) else if force then ReadKey(h) else Idle]
            && s'.handles == s.handles[h := x.(refs := x.refs - 1, usage := true)]
            && s'.held == s.held - {r} && s'.answers == s.answers - {r}
            && s'.table == s.table && s'.bin == s.bin && s'.recycled == s.recycled && s'.usage == s.usage
  {
    hide Do, Enabled, Inv, Plays;
    AnswerIsHeld(s, r);
    PlaysNothing(s, t);
    ReleaseDoes(s, t, r, force);
    steps, s' := PlayOn([], s, Alone(s, t), Release(t, r, force));
    MarkCan(s', t);
    MarkIs(s', t);
    steps, s' := PlayOn(steps, s', Alone(s, t), Mark(t));
    DropCan(s', t);
    DropIs(s', t);
    steps, s' := PlayOn(steps, s', Alone(s, t), Drop(t));
  }

  lemma AnswerIsHeld(s: State, r: RefId)
    requires Inv(s) && r in s.answers
    ensures r in s.held && s.held[r] < |s.handles| && s.handles[s.held[r]].refs >= 1
  {
    hide Locks, Claimed, Tabled, Born, Charged;
    HeldIsCounted(s, r);
  }

  /** Release left alone, without force: one reference less, and the handle goes to the
      bin if and only if that was the last one and the handle is out of cache. */
  lemma ReleaseAlone(s: State, t: ThreadId, r: RefId) returns (steps: seq<Step>, s': State)
    requires Inv(s) && s.mutex == None && t in s.threads && s.threads[t] == Idle && r in s.answers
    ensures Leads(s, steps, s') && Inv(s') && (forall i :: 0 <= i < |steps| ==> steps[i].t == t)
    ensures s'.mutex == None && s'.threads == s.threads && s'.table == s.table && s'.held == s.held - {r} && s'.answers == s.answers - {r}
    ensures r in s.held && s.held[r] < |s.handles| == |s'.handles|
    ensures var h := s.held[r];
            var gone := s.handles[h].refs == 1 && !s.handles[h].inCache;
            && s'.handles[h].refs == s.handles[h].refs - 1 && s'.handles[h].inCache == s.handles[h].inCache
            && s'.bin == (if gone then s.bin + {h} else s.bin)
            && s'.recycled == (if gone then s.recycled + [s.handles[h].birth] else s.recycled)
            && forall g :: 0 <= g < |s.handles| && g != h ==> s'.handles[g] == s.handles[g]
  {
    hide Do, Enabled, Inv, Leads;
    steps, s' := GiveUp(s, t, r, false);
    var h := s.held[r];
    if s'.threads[t].MustRecycle? {
      CanLock(s', t);
      steps, s' := PlayOn(steps, s', Alone(s, t), Lock(t));
      RecycleDoes(s', t, h, Unlocking);
      steps, s' := PlayOn(steps, s', Alone(s, t), Recycle(t));
      UnlockIs(s', t);
      steps, s' := PlayOn(steps, s', Alone(s, t), Unlock(t));
    }
    LeadsInv(s, steps, s');
    assert forall i :: 0 <= i < |steps| ==> Permits(Alone(s, t), steps[i]);
  }

  /** Release left alone, with force and without having to recycle the handle at once:
      the key of the handle is out of the table. */
  lemma ForcedReleaseAlone(s: State, t: ThreadId, r: RefId) returns (steps: seq<Step>, s': State)
    requires Inv(s) && s.mutex == None && t in s.threads && s.threads[t] == Idle && r in s.answers && r in s.held && s.held[r] < |s.handles|
    requires s.handles[s.held[r]].refs > 1 || s.handles[s.held[r]].inCache
    ensures Leads(s, steps, s') && Inv(s') && (forall i :: 0 <= i < |steps| ==> steps[i].t == t)
    ensures s'.mutex == None && s'.threads == s.threads && s'.held == s.held - {r} && s'.answers == s.answers - {r}
    ensures s'.table == s.table - {s.handles[s.held[r]].id}
    ensures |s'.handles| == |s.handles| && !s'.handles[s.held[r]].inCache && s'.handles[s.held[r]].refs == s.handles[s.held[r]].refs - 1
    ensures s.held[r] in s'.bin <==> s.handles[s.held[r]].refs == 1
  {
    hide Do, Enabled, Inv, Plays;
    var h := s.held[r];
    steps, s' := GiveUp(s, t, r, true);
    CanRead(s', t);
    ReadIs(s', t);
    steps, s' := PlayOn(steps, s', Alone(s, t), Read(t));
    PlaysInv(steps, s', s, t);
    HeldIsNotBinned(s, r);
    KeyOfHandle(s, h);
    steps, s' := EraseFrom(steps, s', Alone(s, t), t, s.handles[h].id);
    PlaysInv(steps, s', s, t);
  }

  lemma PlaysInv(steps: seq<Step>, s': State, s: State, t: ThreadId)
    requires Inv(s) && Plays(steps, s', Alone(s, t))
    ensures Leads(s, steps, s') && Inv(s') && forall i :: 0 <= i < |steps| ==> steps[i].t == t
  {
    hide Inv, Leads;
    LeadsInv(s, steps, s');
    assert forall i :: 0 <= i < |steps| ==> Permits(Alone(s, t), steps[i]);
  }

  /** Whether the table leads to this very handle. */
  lemma KeyOfHandle(s: State, h: HandleId)
    requires Inv(s) && s.mutex == None && h < |s.handles|
    ensures s.handles[h].inCache <==> s.handles[h].id in s.table && s.table[s.handles[h].id] == h
  {
    hide Answered, Born, Charged, Locks, Counted;
  }

  // ---- EraseUnRefEntries --------------------------------------------------------------------

  lemma ClearIs(s: State, t: ThreadId)
    requires t in s.threads && s.threads[t] == Clearing
    ensures Enabled(s, Clear(t)) && Do(s, Clear(t)) == Go(s, t, Sweeping(0)).(table := map[])
  {
  }

  lemma SweepIs(s: State, t: ThreadId, i: nat)
    requires t in s.threads && s.threads[t] == Sweeping(i)
    ensures Enabled(s, Sweep(t))
    ensures Do(s, Sweep(t)) == Go(s, t, if i < |s.handles| then Unsetting(i, Sweeping(i + 1)) else Unlocking)
  {
  }

  /** The first n handles are out of cache, and those without references in the bin. */
  ghost predicate SweptOut(s: State, s': State, n: nat) {
    && n <= |s.handles| == |s'.handles|
    && (forall h :: 0 <= h < |s.handles| ==> s'.handles[h].refs == s.handles[h].refs)
    && (forall h :: 0 <= h < n ==> !s'.handles[h].inCache)
    && (forall h :: n <= h < |s.handles| ==> s'.handles[h] == s.handles[h])
    && (forall h: HandleId :: h in s'.bin <==> h in s.bin || (h < n && s.handles[h].inCache && s.handles[h].refs == 0))
  }

  lemma SweepOne(steps: seq<Step>, a: State, s: State, rules: Rules, t: ThreadId, i: nat) returns (steps': seq<Step>, s': State)
    requires Plays(steps, s, rules) && t in rules.movers && t in s.threads && s.threads[t] == Sweeping(i) && i < |s.handles|
    requires SweptOut(a, s, i) && a.handles[i].refs >= 0
    ensures Plays(steps', s', rules) && s'.threads == s.threads[t := Sweeping(i + 1)] && s'.mutex == s.mutex && s'.table == s.table
    ensures SweptOut(a, s', i + 1) && s'.held == s.held && s'.answers == s.answers
  {
    hide Plays, Do, Enabled;
    SweepIs(s, t, i);
    steps', s' := PlayOn(steps, s, rules, Sweep(t));
    UnsetEnabled(s', t);
    UnsetIs(s', t);
    steps', s' := PlayOn(steps', s', rules, Unset(t));
    if s'.threads[t].Recycling? {
      RecycleDoes(s', t, i, Sweeping(i + 1));
      steps', s' := PlayOn(steps', s', rules, Recycle(t));
    }
  }

  lemma SweepRest(steps: seq<Step>, a: State, s: State, rules: Rules, t: ThreadId, i: nat) returns (steps': seq<Step>, s': State)
    requires Plays(steps, s, rules) && t in rules.movers && t in s.threads && s.threads[t] == Sweeping(i)
    requires SweptOut(a, s, i) && forall h :: 0 <= h < |a.handles| ==> a.handles[h].refs >= 0
    ensures Plays(steps', s', rules) && s'.threads == s.threads[t := Unlocking] && s'.mutex == s.mutex && s'.table == s.table
    ensures SweptOut(a, s', |a.handles|) && s'.held == s.held && s'.answers == s.answers
    decreases |a.handles| - i
  {
    hide Plays, Do, Enabled;
    if i < |s.handles| {
      steps', s' := SweepOne(steps, a, s, rules, t, i);
      steps', s' := SweepRest(steps', a, s', rules, t, i + 1);
    } else {
      SweepIs(s, t, i);
      steps', s' := PlayOn(steps, s, rules, Sweep(t));
    }
  }

  /** EraseUnRefEntries left alone: the table is empty, every handle out of cache, and
      those without references are in the bin. */
  lemma SweepAlone(s: State, t: ThreadId) returns (steps: seq<Step>, s': State)
    requires Inv(s) && s.mutex == None && t in s.threads && s.threads[t] == Idle
    ensures Leads(s, steps, s') && Inv(s') && (forall i :: 0 <= i < |steps| ==> steps[i].t == t)
    ensures s'.mutex == None && s'.threads == s.threads && s'.table == map[] && s'.held == s.held && s'.answers == s.answers
    ensures SweptOut(s, s', |s.handles|)
  {
    hide Do, Enabled, Inv, Plays, SweptOut;
    PlaysNothing(s, t);
    CanCall(s, t, MustSweep);
    steps, s' := PlayOn([], s, Alone(s, t), Call(t, MustSweep));
    CanLock(s', t);
    steps, s' := PlayOn(steps, s', Alone(s, t), Lock(t));
    ClearIs(s', t);
    steps, s' := PlayOn(steps, s', Alone(s, t), Clear(t));
    forall h | 0 <= h < |s.handles| ensures s.handles[h].refs >= 0 {
      RefsOk(s, h);
    }
    SweptNone(s, s');
    var p;
    steps, p := SweepRest(steps, s, s', Alone(s, t), t, 0);
    UnlockIs(p, t);
    steps, s' := PlayOn(steps, p, Alone(s, t), Unlock(t));
    SweptSame(s, p, s', |s.handles|);
    PlaysInv(steps, s', s, t);
  }

  lemma SweptNone(s: State, s': State)
    requires s'.handles == s.handles && s'.bin == s.bin
    ensures SweptOut(s, s', 0)
  {
  }

  lemma SweptSame(s: State, p: State, s': State, n: nat)
    requires SweptOut(s, p, n) && s'.handles == p.handles && s'.bin == p.bin
    ensures SweptOut(s, s', n)
  {
  }

  // ---- eviction -----------------------------------------------------------------------------

  lemma EraseEvictedIs(s: State, t: ThreadId, h: HandleId, goal: Option<Insertion>)
    requires t in s.threads && s.threads[t] == Evicted(h, goal) && h < |s.handles|
    ensures Enabled(s, EraseEvicted(t))
    ensures Do(s, EraseEvicted(t)) == Go(s, t, Recycling(h, Evicting(goal))).(table := s.table - {s.handles[h].id})
  {
  }

  lemma StopEvictingIs(s: State, t: ThreadId)
    requires t in s.threads && s.threads[t].Evicting?
    ensures Enabled(s, StopEvicting(t)) && Do(s, StopEvicting(t)) == Go(s, t, Unlocking)
  {
  }

  lemma TryEvictCan(s: State, t: ThreadId, h: HandleId)
    requires t in s.threads && s.threads[t].Evicting? && h < |s.handles|
    ensures Enabled(s, TryEvict(t, h))
  {
  }

  /** What a look at handle h does. */
  predicate LookedAt(s: State, s': State, h: HandleId) {
    && h < |s.handles| == |s'.handles|
    && (forall g :: 0 <= g < |s.handles| && g != h ==> s'.handles[g] == s.handles[g])
    && var x := s.handles[h];
       if x.inCache && !x.usage && x.refs == 0 then
         && s'.table == s.table - {x.id} && !s'.handles[h].inCache && s'.bin == s.bin + {h}
         && s'.recycled == s.recycled + [x.birth] && s'.usage == s.usage - x.total
       else
         && s'.handles[h] == x.(usage := false) && s'.table == s.table && s'.bin == s.bin
         && s'.recycled == s.recycled && s'.usage == s.usage
  }

  lemma EvictLook(steps: seq<Step>, s: State, rules: Rules, t: ThreadId, h: HandleId) returns (steps': seq<Step>, s': State)
    requires Plays(steps, s, rules) && t in rules.movers && t in s.threads && s.threads[t] == Evicting(None) && h < |s.handles|
    ensures Plays(steps', s', rules) && s'.threads == s.threads && s'.mutex == s.mutex && LookedAt(s, s', h)
    ensures s'.held == s.held && s'.answers == s.answers
  {
    hide Do, Enabled, Plays;
    TryEvictCan(s, t, h);
    TryEvictIs(s, t, h);
    steps', s' := PlayOn(steps, s, rules, TryEvict(t, h));
    if s'.threads[t].Evicted? {
      EraseEvictedIs(s', t, h, None);
      steps', s' := PlayOn(steps', s', rules, EraseEvicted(t));
      RecycleDoes(s', t, h, Evicting(None));
      steps', s' := PlayOn(steps', s', rules, Recycle(t));
    }
  }

  lemma LookedAtSame(s: State, p: State, q: State, s': State, h: HandleId)
    requires LookedAt(p, q, h)
    requires p.handles == s.handles && p.table == s.table && p.bin == s.bin && p.recycled == s.recycled && p.usage == s.usage
    requires q.handles == s'.handles && q.table == s'.table && q.bin == s'.bin && q.recycled == s'.recycled && q.usage == s'.usage
    ensures LookedAt(s, s', h)
  {
  }

  /** A look at handle h by an evicting thread left alone: an entry that is neither used
      nor referenced is out of table and cache, and its handle in the bin; any other
      handle only loses its usage bit. */
  lemma EvictAlone(s: State, t: ThreadId, h: HandleId) returns (steps: seq<Step>, s': State)
    requires Inv(s) && s.mutex == None && t in s.threads && s.threads[t] == Idle && h < |s.handles|
    ensures Leads(s, steps, s') && Inv(s') && (forall i :: 0 <= i < |steps| ==> steps[i].t == t)
    ensures s'.mutex == None && s'.threads == s.threads && s'.held == s.held && s'.answers == s.answers && LookedAt(s, s', h)
  {
    hide Do, Enabled, Inv, Plays, LookedAt;
    PlaysNothing(s, t);
    CanCall(s, t, MustResize);
    var p, q;
    steps, p := PlayOn([], s, Alone(s, t), Call(t, MustResize));
    CanLock(p, t);
    steps, p := PlayOn(steps, p, Alone(s, t), Lock(t));
    steps, q := EvictLook(steps, p, Alone(s, t), t, h);
    StopEvictingIs(q, t);
    steps, s' := PlayOn(steps, q, Alone(s, t), StopEvicting(t));
    UnlockIs(s', t);
    steps, s' := PlayOn(steps, s', Alone(s, t), Unlock(t));
    LookedAtSame(s, p, q, s', h);
    PlaysInv(steps, s', s, t);
  }
}
