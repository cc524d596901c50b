/** Schedules of the CLOCK shard played out: whole calls of one thread, step by step. */
module ClockSchedule {
  import opened ClockCache
  import opened ClockProof
  import opened ClockSteps

  lemma NoSteps(s: State)
    ensures Leads(s, [], s)
  {
  }

  /** What a schedule from `start` may do: who moves, which keys clients ask to erase,
      and whether references are taken and given up. */
  datatype Rules = Rules(start: State, movers: set<ThreadId>, asked: set<CacheKey>, counting: bool)

  predicate Permits(rules: Rules, step: Step) {
    && step.t in rules.movers
    && (step.Call? && step.op.MustErase? ==> step.op.id in rules.asked)
    && (step.Ref? || step.Drop? ==> rules.counting)
  }

  ghost predicate Plays(steps: seq<Step>, s: State, rules: Rules) {
    Leads(rules.start, steps, s) && forall i :: 0 <= i < |steps| ==> Permits(rules, steps[i])
  }

  lemma PlayOn(steps: seq<Step>, s: State, rules: Rules, step: Step) returns (steps': seq<Step>, s': State)
    requires Plays(steps, s, rules) && Enabled(s, step) && Permits(rules, step)
    ensures s' == Do(s, step) && Plays(steps', s', rules)
  {
    hide Leads, Do, Enabled, Permits;
    LeadsMore(rules.start, steps, s, step);
    steps', s' := steps + [step], Do(s, step);
  }

  lemma CanCall(s: State, t: ThreadId, op: Pc)
    requires t in s.threads && s.threads[t] == Idle && Starts(op)
    ensures Enabled(s, Call(t, op)) && Do(s, Call(t, op)) == Go(s, t, op)
  {
  }

  lemma CanLock(s: State, t: ThreadId)
    requires t in s.threads && NeedsLock(s.threads[t]) && s.mutex == None
    ensures Enabled(s, Lock(t)) && Do(s, Lock(t)) == Go(s, t, AfterLock(s.threads[t])).(mutex := Some(t))
  {
  }

  lemma CanErase(s: State, t: ThreadId)
    requires t in s.threads && s.threads[t].Erasing?
    ensures Enabled(s, Erase(t))
  {
  }

  /** Nothing is recycled, and of the handles only h may change. */
  predicate Spares(s: State, s': State, h: HandleId) {
    && s'.recycled == s.recycled && s'.bin == s.bin - {h} && h < |s'.handles|
    && |s'.handles| == (if h < |s.handles| then |s.handles| else |s.handles| + 1)
    && forall g :: 0 <= g < |s.handles| && g != h ==> s'.handles[g] == s.handles[g]
  }

  /** Thread t begins an insertion, into handle h. */
  lemma PlayGrab(steps: seq<Step>, s: State, rules: Rules, t: ThreadId, ins: Insertion, h: HandleId)
    returns (steps': seq<Step>, s': State)
    requires Plays(steps, s, rules) && t in rules.movers && t in s.threads && s.threads[t] == Idle && s.mutex == None
    requires if s.bin == {} then h == |s.handles| else h in s.bin && h < |s.handles|
    ensures Plays(steps', s', rules) && s'.mutex == Some(t) && s'.threads == s.threads[t := Filled(ins, h)] && Spares(s, s', h)
    ensures s'.table == s.table && s'.held == s.held && s'.answers == s.answers && s'.inserted == s.inserted + 1
    ensures s'.handles[h].(usage := false) == Handle(ins.id, ins.total, s.inserted, false, false, 0)
  {
    hide Plays;
    CanCall(s, t, MustInsert(ins));
    steps', s' := PlayOn(steps, s, rules, Call(t, MustInsert(ins)));
    CanLock(s', t);
    steps', s' := PlayOn(steps', s', rules, Lock(t));
    steps', s' := PlayOn(steps', s', rules, Grab(t, h));
  }

  lemma PlayStore(steps: seq<Step>, s: State, rules: Rules, t: ThreadId, ins: Insertion, h: HandleId, r: RefId)
    returns (steps': seq<Step>, s': State)
    requires Plays(steps, s, rules) && t in rules.movers && t in s.threads && s.threads[t] == Filled(ins, h) && h < |s.handles| && h !in s.bin
    requires r !in s.held && r !in s.answers
    ensures Plays(steps', s', rules) && s'.mutex == s.mutex && s'.threads == s.threads[t := Stored(ins, h)] && Spares(s, s', h)
    ensures s'.table == s.table && s'.inserted == s.inserted
    ensures s'.handles[h] == s.handles[h].(inCache := true, usage := false, refs := if ins.hold then 1 else 0)
    ensures s'.held == (if ins.hold then s.held[r := h] else s.held)
    ensures s'.answers == (if ins.hold then s.answers[r := (ins.id, s.handles[h].birth)] else s.answers)
  {
    hide Plays, Do, Enabled;
    CanStore(s, t, r);
    StoreIs(s, t, r);
    steps', s' := PlayOn(steps, s, rules, Store(t, r));
  }

  lemma CanStore(s: State, t: ThreadId, r: RefId)
    requires t in s.threads && s.threads[t].Filled? && s.threads[t].h < |s.handles| && r !in s.held && r !in s.answers
    ensures Enabled(s, Store(t, r))
  {
  }

  lemma CanReplace(s: State, t: ThreadId)
    requires t in s.threads && s.threads[t].Stored?
    ensures Enabled(s, Replace(t))
  {
  }

  lemma PlaceIs(s: State, t: ThreadId, ins: Insertion, h: HandleId)
    requires t in s.threads && s.threads[t] == Placing(ins, h)
    ensures Enabled(s, Place(t)) && Do(s, Place(t)) == Go(s, t, Charging(ins, h)).(table := s.table[ins.id := h])
  {
  }

  lemma UnlockIs(s: State, t: ThreadId)
    requires t in s.threads && s.threads[t] == Unlocking
    ensures Enabled(s, Unlock(t)) && Do(s, Unlock(t)) == Go(s, t, Idle).(mutex := None)
  {
  }

  lemma ChargeEnabled(s: State, t: ThreadId)
    requires t in s.threads && s.threads[t].Charging?
    ensures Enabled(s, Charge(t))
  {
  }

  lemma PlayPlace(steps: seq<Step>, s: State, rules: Rules, t: ThreadId, ins: Insertion, h: HandleId)
    returns (steps': seq<Step>, s': State)
    requires Plays(steps, s, rules) && t in rules.movers && t in s.threads && s.threads[t] == Placing(ins, h)
    ensures Plays(steps', s', rules) && s'.mutex == None && s'.threads == s.threads[t := Idle]
    ensures s'.table == s.table[ins.id := h] && s'.handles == s.handles && s'.held == s.held && s'.answers == s.answers
    ensures s'.recycled == s.recycled && s'.bin == s.bin && s'.inserted == s.inserted
  {
    hide Plays, Do, Enabled;
    PlaceIs(s, t, ins, h);
    steps', s' := PlayOn(steps, s, rules, Place(t));
    ChargeEnabled(s', t);
    ChargeIs(s', t);
    steps', s' := PlayOn(steps', s', rules, Charge(t));
    UnlockIs(s', t);
    steps', s' := PlayOn(steps', s', rules, Unlock(t));
  }

  /** A whole insertion under a free key. */
  lemma PlayInsert(steps: seq<Step>, s: State, rules: Rules, t: ThreadId, ins: Insertion, h: HandleId, r: RefId)
    returns (steps': seq<Step>, s': State)
    requires Plays(steps, s, rules) && t in rules.movers && t in s.threads && s.threads[t] == Idle && s.mutex == None && ins.id !in s.table
    requires if s.bin == {} then h == |s.handles| else h in s.bin && h < |s.handles|
    requires r !in s.held && r !in s.answers
    ensures Plays(steps', s', rules) && s'.mutex == None && s'.threads == s.threads && Spares(s, s', h)
    ensures s'.table == s.table[ins.id := h] && s'.inserted == s.inserted + 1
    ensures s'.handles[h] == Handle(ins.id, ins.total, s.inserted, true, false, if ins.hold then 1 else 0)
    ensures s'.held == (if ins.hold then s.held[r := h] else s.held)
    ensures s'.answers == (if ins.hold then s.answers[r := (ins.id, s.inserted)] else s.answers)
  {
    hide Plays, Do, Enabled;
    steps', s' := PlayGrab(steps, s, rules, t, ins, h);
    steps', s' := PlayStore(steps', s', rules, t, ins, h, r);
    CanReplace(s', t);
    ReplaceIs(s', t);
    steps', s' := PlayOn(steps', s', rules, Replace(t));
    steps', s' := PlayPlace(steps', s', rules, t, ins, h);
  }

  /** The same under a key that handle g has in the table, which is referenced. */
  lemma PlayOverwrite(steps: seq<Step>, s: State, rules: Rules, t: ThreadId, ins: Insertion, h: HandleId, r: RefId, g: HandleId)
    returns (steps': seq<Step>, s': State)
    requires Plays(steps, s, rules) && t in rules.movers && t in s.threads && s.threads[t] == Idle && s.mutex == None
    requires ins.id in s.table && s.table[ins.id] == g && g < |s.handles| && s.handles[g].refs > 0 && !ins.hold
    requires s.bin == {} && h == |s.handles| && r !in s.held && r !in s.answers
    ensures Plays(steps', s', rules) && s'.mutex == None && s'.threads == s.threads
    ensures s'.recycled == s.recycled && s'.bin == {} && |s'.handles| == |s.handles| + 1
    ensures s'.table == (s.table - {ins.id})[ins.id := h] && s'.held == s.held && s'.answers == s.answers
    ensures s'.handles[h] == Handle(ins.id, ins.total, s.inserted, true, false, 0)
    ensures s'.handles[g] == s.handles[g].(inCache := false)
  {
    hide Plays, Do, Enabled;
    steps', s' := PlayGrab(steps, s, rules, t, ins, h);
    steps', s' := PlayStore(steps', s', rules, t, ins, h, r);
    CanReplace(s', t);
    ReplaceIs(s', t);
    steps', s' := PlayOn(steps', s', rules, Replace(t));
    UnsetEnabled(s', t);
    UnsetIs(s', t);
    steps', s' := PlayOn(steps', s', rules, Unset(t));
    steps', s' := PlayPlace(steps', s', rules, t, ins, h);
  }

  lemma UnsetEnabled(s: State, t: ThreadId)
    requires t in s.threads && s.threads[t].Unsetting? && s.threads[t].h < |s.handles|
    ensures Enabled(s, Unset(t))
  {
  }

  lemma RecycleIs(s: State, t: ThreadId, h: HandleId)
    requires t in s.threads && s.threads[t] == Recycling(h, Unlocking) && h < |s.handles|
    ensures Enabled(s, Recycle(t))
    ensures var s' := Do(s, Recycle(t));
            && s'.threads == s.threads[t := Unlocking] && s'.table == s.table && |s'.handles| == |s.handles| && h in s'.bin
            && s'.held == s.held && s'.answers == s.answers
  {
  }

  lemma PlayUnset(steps: seq<Step>, s: State, rules: Rules, t: ThreadId, h: HandleId) returns (steps': seq<Step>, s': State)
    requires Plays(steps, s, rules) && t in rules.movers && t in s.threads && s.threads[t] == Unsetting(h, Unlocking)
    requires h < |s.handles| && s.handles[h].inCache && s.handles[h].refs == 0
    ensures Plays(steps', s', rules) && s'.mutex == None && s'.threads == s.threads[t := Idle]
    ensures s'.table == s.table && |s'.handles| == |s.handles| && h in s'.bin && s'.held == s.held && s'.answers == s.answers
  {
    hide Plays, Do, Enabled;
    UnsetEnabled(s, t);
    UnsetIs(s, t);
    steps', s' := PlayOn(steps, s, rules, Unset(t));
    RecycleIs(s', t, h);
    steps', s' := PlayOn(steps', s', rules, Recycle(t));
    UnlockIs(s', t);
    steps', s' := PlayOn(steps', s', rules, Unlock(t));
  }

  /** Thread t erases an entry without references: its handle goes to the bin. */
  lemma PlayErase(steps: seq<Step>, s: State, rules: Rules, t: ThreadId, id: CacheKey) returns (steps': seq<Step>, s': State)
    requires Plays(steps, s, rules) && t in rules.movers && t in s.threads && s.threads[t] == Idle && s.mutex == None
    requires id in rules.asked && id in s.table && s.table[id] < |s.handles|
    requires s.handles[s.table[id]].inCache && s.handles[s.table[id]].refs == 0
    ensures Plays(steps', s', rules) && s'.mutex == None && s'.threads == s.threads
    ensures s'.table == s.table - {id} && |s'.handles| == |s.handles| && s.table[id] in s'.bin
    ensures s'.held == s.held && s'.answers == s.answers
  {
    hide Plays, Do, Enabled;
    CanCall(s, t, MustErase(id));
    steps', s' := PlayOn(steps, s, rules, Call(t, MustErase(id)));
    CanLock(s', t);
    steps', s' := PlayOn(steps', s', rules, Lock(t));
    CanErase(s', t);
    EraseIs(s', t);
    steps', s' := PlayOn(steps', s', rules, Erase(t));
    steps', s' := PlayUnset(steps', s', rules, t, s.table[id]);
  }

  /** Thread t gives up a reference to a handle, with force and without having to
      recycle it, and is about to read the key. */
  lemma PlayDrop(steps: seq<Step>, s: State, rules: Rules, t: ThreadId, r: RefId) returns (steps': seq<Step>, s': State)
    requires Plays(steps, s, rules) && t in rules.movers && rules.counting && t in s.threads && s.threads[t] == Idle
    requires r in s.answers && r in s.held && s.held[r] < |s.handles|
    requires s.handles[s.held[r]].inCache || s.handles[s.held[r]].refs > 1
    ensures Plays(steps', s', rules) && s'.mutex == s.mutex && s'.threads == s.threads[t := ReadKey(s.held[r])]
    ensures s'.table == s.table && |s'.handles| == |s.handles| && s'.recycled == s.recycled
    ensures s'.handles == s.handles[s.held[r] := s.handles[s.held[r]].(refs := s.handles[s.held[r]].refs - 1, usage := true)]
    ensures s'.held == s.held - {r} && s'.answers == s.answers - {r}
  {
    hide Plays;
    steps', s' := PlayOn(steps, s, rules, Release(t, r, true));
    steps', s' := PlayOn(steps', s', rules, Mark(t));
    steps', s' := PlayOn(steps', s', rules, Drop(t));
  }

  lemma AgainIs(s: State, t: ThreadId, r: RefId, r': RefId)
    requires t in s.threads && s.threads[t] == Idle && r in s.answers && r in s.held && s.held[r] < |s.handles|
    requires r' !in s.held && r' !in s.answers && s.handles[s.held[r]].inCache
    ensures Enabled(s, Again(t, r, r'))
    ensures var h := s.held[r];
            Do(s, Again(t, r, r')) ==
            Go(Put(s, h, s.handles[h].(refs := s.handles[h].refs + 1)), t, Idle).(held := s.held[r' := h], answers := s.answers[r' := s.answers[r]])
  {
  }

  /** Two threads, which ask to erase only these keys. */
  function From(asked: set<CacheKey>): Rules {
    Rules(Init(), {1, 2}, asked, true)
  }

  lemma PlayStart(rules: Rules) returns (steps: seq<Step>, s: State)
    requires rules.start == Init() && 1 in rules.movers && 2 in rules.movers
    ensures Plays(steps, s, rules) && s == Init().(threads := map[1 := Idle, 2 := Idle])
  {
    steps, s := [], Init();
    hide Leads;
    NoSteps(s);
    steps, s := PlayOn(steps, s, rules, Spawn(1));
    steps, s := PlayOn(steps, s, rules, Spawn(2));
  }

  /** Nobody asks to erase anything but these keys. */
  ghost predicate ErasesOnly(steps: seq<Step>, asked: set<CacheKey>) {
    forall i :: 0 <= i < |steps| && steps[i].Call? && steps[i].op.MustErase? ==> steps[i].op.id in asked
  }

  lemma PlaysIsReachable(steps: seq<Step>, s: State, asked: set<CacheKey>)
    requires Plays(steps, s, From(asked))
    ensures Reachable(s, steps) && ErasesOnly(steps, asked)
  {
    LeadsFromInit(steps, s);
    assert forall i :: 0 <= i < |steps| ==> Permits(From(asked), steps[i]);
  }
}
