/** The pinned usage of the CLOCK shard (cache/clock_cache.cc): the charge of the
    handles with references, kept by counters that change after the flags do. */
module ClockPinned {
  import opened ClockCache
  import opened ClockProof
  import opened ClockSteps
  import opened ClockSchedule

  // ---- what it should be -----------------------------------------------------------

  function Weighs(x: Handle): int {
    if x.refs > 0 then x.total else 0
  }

  /** The charge of the handles with references. */
  function Pinned(handles: Handles): int {
    if handles == [] then 0 else Pinned(handles[..|handles| - 1]) + Weighs(handles[|handles| - 1])
  }

  lemma {:induction false} PinnedSame(a: Handles, b: Handles)
    requires |a| == |b| && forall h :: 0 <= h < |a| ==> Weighs(a[h]) == Weighs(b[h])
    ensures Pinned(a) == Pinned(b)
    decreases |a|
  {
    if a != [] {
      PinnedSame(a[..|a| - 1], b[..|b| - 1]);
    }
  }

  lemma {:induction false} PinnedPut(a: Handles, h: HandleId, x: Handle)
    requires h < |a|
    ensures Pinned(a[h := x]) == Pinned(a) - Weighs(a[h]) + Weighs(x)
    decreases |a|
  {
    var last := |a| - 1;
    if h < last {
      PinnedPut(a[..last], h, x);
      assert a[h := x][..last] == a[..last][h := x];
    } else {
      assert a[h := x][..last] == a[..last];
    }
  }

  lemma PinnedMore(a: Handles, x: Handle)
    ensures Pinned(a + [x]) == Pinned(a) + Weighs(x)
  {
    assert (a + [x])[..|a|] == a;
  }

  /** The charge of an insertion with a reference that has not been added yet. */
  function Pending(pc: Pc): int {
    match Core(pc)
    case Stored(ins, _) => if ins.hold then ins.total else 0
    case Placing(ins, _) => if ins.hold then ins.total else 0
    case Charging(ins, _) => if ins.hold then ins.total else 0
    case _ => 0
  }

  function Exact(s: State): int {
    Pinned(s.handles) - Pending(Holder(s))
  }

  /** What a step should add to the pinned usage. */
  function Delta(s: State, step: Step): int
    requires Enabled(s, step)
  {
    match step
    case Ref(t, r) =>
      var x := s.handles[s.threads[t].h];
      if x.inCache && x.refs == 0 then x.total else 0
    case Drop(t) =>
      var x := s.handles[s.held[s.threads[t].r]];
      if x.refs == 1 then -(x.total as int) else 0
    case Charge(t) => if s.threads[t].ins.hold then s.threads[t].ins.total else 0
    case _ => 0
  }

  // ---- the holder of the mutex -------------------------------------------------------

  predicate Free(step: Step) {
    step.Spawn? || step.Find? || step.Compare? || step.Release? || step.Read? || step.Call?
  }

  lemma CountsKeepHolder(s: State, step: Step)
    requires Locks(s) && Enabled(s, step) && Counts(step)
    ensures Holder(Do(s, step)) == Holder(s)
  {
    assert !HasMutex(s.threads[step.t]);
  }

  lemma FreeKeepsHolder(s: State, step: Step)
    requires Locks(s) && Enabled(s, step) && Free(step)
    ensures Holder(Do(s, step)) == Holder(s) && Do(s, step).handles == s.handles
  {
    assert !HasMutex(PcOf(s, step.t));
  }

  lemma EvictsKeepPending(s: State, step: Step)
    requires Locks(s) && Enabled(s, step) && (step.EraseEvicted? || step.StopEvicting? || step.Recycle?)
    ensures Pending(Holder(Do(s, step))) == Pending(Holder(s))
  {
    assert Holder(s) == s.threads[step.t] && WellNested(s.threads[step.t]);
  }

  lemma ErasesKeepPending(s: State, step: Step)
    requires Locks(s) && Enabled(s, step) && (step.Erase? || step.Clear? || step.Sweep?)
    ensures Pending(Holder(Do(s, step))) == Pending(Holder(s))
  {
    assert Holder(s) == s.threads[step.t];
  }

  lemma RemovesKeepPending(s: State, step: Step)
    requires Locks(s) && Enabled(s, step) && Removes(step)
    ensures Pending(Holder(Do(s, step))) == Pending(Holder(s))
  {
    hide Do, Enabled, Locks, Holder, Pending;
    if step.Erase? || step.Clear? || step.Sweep? {
      ErasesKeepPending(s, step);
    } else {
      EvictsKeepPending(s, step);
    }
  }

  lemma TryEvictKeepsPending(s: State, t: ThreadId, h: HandleId)
    requires Inv(s) && Enabled(s, TryEvict(t, h))
    ensures Exact(Do(s, TryEvict(t, h))) == Exact(s)
  {
    hide Do, Enabled, Counted, Answered, Claimed, Tabled, Born, Charged, Pinned;
    TryEvictIs(s, t, h);
    var s' := Do(s, TryEvict(t, h));
    PinnedSame(s.handles, s'.handles);
  }

  lemma UnsetKeepsPending(s: State, t: ThreadId)
    requires Inv(s) && Enabled(s, Unset(t))
    ensures Exact(Do(s, Unset(t))) == Exact(s)
  {
    hide Do, Enabled, Counted, Answered, Claimed, Tabled, Born, Charged, Pinned;
    UnsetIs(s, t);
    var s' := Do(s, Unset(t));
    PinnedSame(s.handles, s'.handles);
  }

  lemma RemovesChange(s: State, step: Step)
    requires Inv(s) && Enabled(s, step) && Removes(step)
    ensures Exact(Do(s, step)) == Exact(s)
  {
    hide Do, Enabled, Locks, Counted, Answered, Claimed, Tabled, Born, Charged, Pinned;
    RemovesKeepPending(s, step);
    if step.Recycle? {
      RecycleRecords(s, step.t);
      PinnedSame(s.handles, Do(s, step).handles);
    } else {
      OthersLeave(s, step);
    }
  }

  // ---- references ----------------------------------------------------------------------

  lemma RefIs(s: State, t: ThreadId, r: RefId)
    requires Enabled(s, Ref(t, r))
    ensures t in s.threads && s.threads[t].Found? && s.threads[t].h < |s.handles| && r !in s.held && r !in s.answers
    ensures var h := s.threads[t].h;
            var x := s.handles[h];
            Do(s, Ref(t, r)) ==
            if x.inCache then
              Go(Put(s, h, x.(refs := x.refs + 1)), t, Reffed(s.threads[t].id, r)).(held := s.held[r := h])
            else Go(s, t, Idle)
  {
  }

  lemma DropIs(s: State, t: ThreadId)
    requires Enabled(s, Drop(t))
    ensures t in s.threads && s.threads[t].Dropping? && s.threads[t].r in s.held && s.held[s.threads[t].r] < |s.handles|
    ensures var pc := s.threads[t];
            var h := s.held[pc.r];
            var x := s.handles[h];
            Do(s, Drop(t)) ==
            Go(Put(s, h, x.(refs := x.refs - 1)), t,
               if x.refs == 1 && !x.inCache then MustRecycle(h) else if pc.force then ReadKey(h) else Idle).(held := s.held - {pc.r})
  {
  }

  lemma MarkIs(s: State, t: ThreadId)
    requires Enabled(s, Mark(t))
    ensures t in s.threads && s.threads[t].Marking? && s.threads[t].r in s.held && s.held[s.threads[t].r] < |s.handles|
    ensures var h := s.held[s.threads[t].r];
            Do(s, Mark(t)) == Go(Put(s, h, s.handles[h].(usage := true)), t, Dropping(s.threads[t].r, s.threads[t].force))
  {
  }

  /** A client takes one more reference to a handle that it holds. */
  lemma AgainAdds(s: State, t: ThreadId, r: RefId, r': RefId)
    requires Enabled(s, Again(t, r, r'))
    ensures r in s.held && s.held[r] < |s.handles|
    ensures var h := s.held[r];
            var x := s.handles[h];
            if x.inCache then
              && Do(s, Again(t, r, r')).handles == s.handles[h := x.(refs := x.refs + 1)]
              && Do(s, Again(t, r, r')).held == s.held[r' := h] && r' !in s.held
            else Do(s, Again(t, r, r')).handles == s.handles && Do(s, Again(t, r, r')).held == s.held
  {
  }

  lemma RefsAreNatural(s: State, h: HandleId)
    requires Counted(s) && h < |s.handles|
    ensures s.handles[h].refs >= 0
  {
  }

  lemma CountsChange(s: State, step: Step)
    requires Inv(s) && Enabled(s, step) && Counts(step)
    ensures Exact(Do(s, step)) == Exact(s) + Delta(s, step)
  {
    hide Do, Enabled, Locks, Counted, Answered, Claimed, Tabled, Born, Charged, Pinned, Holder;
    CountsKeepHolder(s, step);
    match step
    case Ref(t, r) =>
      RefIs(s, t, r);
      var h := s.threads[t].h;
      RefsAreNatural(s, h);
      PinnedPut(s.handles, h, s.handles[h].(refs := s.handles[h].refs + 1));
    case Again(t, r, r') =>
      AgainAdds(s, t, r, r');
      HeldIsCounted(s, r);
      var h := s.held[r];
      PinnedPut(s.handles, h, s.handles[h].(refs := s.handles[h].refs + 1));
    case Mark(t) =>
      MarkIs(s, t);
      var h := s.held[s.threads[t].r];
      PinnedPut(s.handles, h, s.handles[h].(usage := true));
    case Drop(t) =>
      DropIs(s, t);
      HeldIsCounted(s, s.threads[t].r);
      var h := s.held[s.threads[t].r];
      PinnedPut(s.handles, h, s.handles[h].(refs := s.handles[h].refs - 1));
  }

  // ---- insertions ------------------------------------------------------------------------

  lemma GrabIs(s: State, t: ThreadId, h: HandleId)
    requires Enabled(s, Grab(t, h))
    ensures t in s.threads && s.threads[t].Evicting? && s.threads[t].goal.Some? && (h in s.bin || h == |s.handles|)
    ensures var s' := Do(s, Grab(t, h));
            && s'.mutex == s.mutex && s'.threads == s.threads[t := Filled(s.threads[t].goal.value, h)]
            && h < |s'.handles| && s'.handles[h].refs == 0
            && s'.handles == if h < |s.handles| then s.handles[h := s'.handles[h]] else s.handles + [s'.handles[h]]
  {
  }

  lemma GrabChanges(s: State, t: ThreadId, h: HandleId)
    requires Inv(s) && Enabled(s, Grab(t, h))
    ensures Exact(Do(s, Grab(t, h))) == Exact(s)
  {
    hide Do, Enabled, Counted, Answered, Tabled, Born, Charged, Pinned;
    GrabIs(s, t, h);
    var s' := Do(s, Grab(t, h));
    if h < |s.handles| {
      PinnedPut(s.handles, h, s'.handles[h]);
    } else {
      PinnedMore(s.handles, s'.handles[h]);
    }
  }

  lemma StoreChanges(s: State, t: ThreadId, r: RefId)
    requires Inv(s) && Enabled(s, Store(t, r))
    ensures Exact(Do(s, Store(t, r))) == Exact(s)
  {
    hide Do, Enabled, Counted, Answered, Born, Charged, Pinned;
    StoreIs(s, t, r);
    var h, ins := s.threads[t].h, s.threads[t].ins;
    assert Holder(s) == s.threads[t] && Claim(s.threads[t]) == Some(h);
    assert s.handles[h].total == ins.total && s.handles[h].refs == 0;
    PinnedPut(s.handles, h, s.handles[h].(inCache := true, usage := false, refs := if ins.hold then 1 else 0));
  }

  lemma ReplaceKeepsPending(s: State, t: ThreadId)
    requires Locks(s) && Enabled(s, Replace(t))
    ensures Exact(Do(s, Replace(t))) == Exact(s)
  {
    hide Do, Enabled, Pinned;
    ReplaceIs(s, t);
    assert Holder(s) == s.threads[t];
  }

  lemma PlaceKeepsPending(s: State, t: ThreadId)
    requires Locks(s) && Enabled(s, Place(t))
    ensures Exact(Do(s, Place(t))) == Exact(s)
  {
    hide Do, Pinned;
    PlaceIs(s, t, s.threads[t].ins, s.threads[t].h);
    assert Holder(s) == s.threads[t];
  }

  lemma ChargeChanges(s: State, t: ThreadId)
    requires Locks(s) && Enabled(s, Charge(t))
    ensures Exact(Do(s, Charge(t))) == Exact(s) + Delta(s, Charge(t))
  {
    hide Do, Enabled, Pinned;
    ChargeIs(s, t);
    assert Holder(s) == s.threads[t];
  }

  lemma LockChanges(s: State, t: ThreadId)
    requires Locks(s) && Enabled(s, Lock(t))
    ensures Exact(Do(s, Lock(t))) == Exact(s)
  {
    hide Do, Pinned;
    LockIs(s, t);
  }

  lemma UnlockChanges(s: State, t: ThreadId)
    requires Locks(s) && Enabled(s, Unlock(t))
    ensures Exact(Do(s, Unlock(t))) == Exact(s)
  {
    hide Do, Pinned;
    UnlockIs(s, t);
    assert Holder(s) == s.threads[t];
  }

  /** Every step of every thread changes what the pinned usage should be by this. */
  lemma StepChanges(s: State, step: Step)
    requires Inv(s) && Enabled(s, step)
    ensures Exact(Do(s, step)) == Exact(s) + Delta(s, step)
  {
    hide Do, Enabled, Locks, Counted, Answered, Claimed, Tabled, Born, Charged, Pinned, Holder;
    if Counts(step) {
      CountsChange(s, step);
    } else if Free(step) {
      FreeKeepsHolder(s, step);
    } else if Removes(step) {
      RemovesChange(s, step);
    } else {
      match step
      case TryEvict(t, h) => TryEvictKeepsPending(s, t, h);
      case Unset(t) => UnsetKeepsPending(s, t);
      case Grab(t, h) => GrabChanges(s, t, h);
      case Store(t, r) => StoreChanges(s, t, r);
      case Charge(t) => ChargeChanges(s, t);
      case Lock(t) => LockChanges(s, t);
      case Unlock(t) => UnlockChanges(s, t);
      case Replace(t) => ReplaceKeepsPending(s, t);
      case Place(t) => PlaceKeepsPending(s, t);
    }
  }

  /** If Ref, Unref and Insert changed flags and pinned usage in one step: the pinned
      usage after a schedule. */
  ghost predicate AtOnce(steps: seq<Step>, s: State, pinned: int)
    decreases |steps|
  {
    if steps == [] then s == Init() && pinned == 0
    else
      var last := |steps| - 1;
      exists p :: Enabled(p, steps[last]) && s == Do(p, steps[last]) && AtOnce(steps[..last], p, pinned - Delta(p, steps[last]))
  }

  lemma InitIsExact()
    ensures Inv(Init()) && Exact(Init()) == 0
  {
    assert forall h: HandleId :: Holders(Init(), h) == {};
  }

  lemma ExactWhenFree(s: State)
    requires s.mutex == None
    ensures Exact(s) == Pinned(s.handles)
  {
  }

  /** Then, with the mutex free, it would be the charge of the handles with references. */
  lemma {:induction false} AtOnceIsExact(steps: seq<Step>, s: State, pinned: int)
    requires AtOnce(steps, s, pinned)
    ensures Inv(s) && pinned == Exact(s)
    ensures s.mutex == None ==> pinned == Pinned(s.handles)
    decreases |steps|
  {
    hide Do, Enabled, Inv, Delta, Pinned, Exact;
    if steps == [] {
      InitIsExact();
    } else {
      var last := |steps| - 1;
      var p :| Enabled(p, steps[last]) && s == Do(p, steps[last]) && AtOnce(steps[..last], p, pinned - Delta(p, steps[last]));
      AtOnceIsExact(steps[..last], p, pinned - Delta(p, steps[last]));
      StepKeepsInv(p, steps[last]);
      StepChanges(p, steps[last]);
    }
    if s.mutex == None {
      ExactWhenFree(s);
    }
  }
}
