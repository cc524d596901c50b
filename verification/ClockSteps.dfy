/** Schedules of the CLOCK shard, and what the steps of its threads leave alone. */
module ClockSteps {
  import opened ClockCache
  import opened ClockProof

  /** A schedule leads from s to s'. */
  ghost predicate Leads(s: State, steps: seq<Step>, s': State)
    decreases |steps|
  {
    if steps == [] then s' == s
    else
      var last := |steps| - 1;
      exists p :: Leads(s, steps[..last], p) && Enabled(p, steps[last]) && s' == Do(p, steps[last])
  }

  lemma LeadsMore(s: State, steps: seq<Step>, p: State, step: Step)
    requires Leads(s, steps, p) && Enabled(p, step)
    ensures Leads(s, steps + [step], Do(p, step))
  {
    assert (steps + [step])[..|steps|] == steps;
  }

  lemma {:induction false} LeadsInv(s: State, steps: seq<Step>, s': State)
    requires Inv(s) && Leads(s, steps, s')
    ensures Inv(s')
    decreases |steps|
  {
    hide Inv, Do, Enabled;
    if steps != [] {
      var last := |steps| - 1;
      var p :| Leads(s, steps[..last], p) && Enabled(p, steps[last]) && s' == Do(p, steps[last]);
      LeadsInv(s, steps[..last], p);
      StepKeepsInv(p, steps[last]);
    }
  }

  lemma {:induction false} LeadsFromInit(steps: seq<Step>, s: State)
    requires Leads(Init(), steps, s)
    ensures Reachable(s, steps)
    decreases |steps|
  {
    hide Do, Enabled;
    if steps != [] {
      var last := |steps| - 1;
      var p :| Leads(Init(), steps[..last], p) && Enabled(p, steps[last]) && s == Do(p, steps[last]);
      LeadsFromInit(steps[..last], p);
    }
  }

  /** The steps on the flags of a handle that count references. */
  predicate Counts(step: Step) {
    step.Ref? || step.Again? || step.Mark? || step.Drop?
  }

  /** The steps that put a handle into the cache or take it out. */
  predicate Moves(step: Step) {
    step.TryEvict? || step.Unset? || step.Store?
  }

  /** The other steps of a thread that holds the mutex. */
  predicate Removes(step: Step) {
    step.EraseEvicted? || step.StopEvicting? || step.Recycle? || step.Erase? || step.Clear? || step.Sweep?
  }

  predicate Inserts(step: Step) {
    step.Grab? || step.Replace? || step.Place? || step.Charge? || step.Unlock?
  }

  /** Recycling records the insertion. */
  lemma RecycleRecords(s: State, t: ThreadId)
    requires Enabled(s, Recycle(t))
    ensures t in s.threads && s.threads[t].Recycling? && s.threads[t].h < |s.handles|
    ensures var h, s' := s.threads[t].h, Do(s, Recycle(t));
            && s'.recycled == s.recycled + [s.handles[h].birth]
            && |s'.handles| == |s.handles| && s'.handles[h] == s.handles[h].(id := s'.handles[h].id)
            && forall g :: 0 <= g < |s.handles| && g != h ==> s'.handles[g] == s.handles[g]
  {
  }

  /** A handle is reused from the bin only. */
  lemma GrabReuses(s: State, t: ThreadId, h: HandleId)
    requires Enabled(s, Grab(t, h))
    ensures h in s.bin || h == |s.handles|
    ensures var s' := Do(s, Grab(t, h));
            && s'.recycled == s.recycled && |s'.handles| >= |s.handles| && h < |s'.handles| && s'.handles[h].birth == s.inserted
            && forall g :: 0 <= g < |s.handles| && g != h ==> s'.handles[g] == s.handles[g]
  {
  }

  lemma CountsLeave(s: State, step: Step, h: HandleId)
    requires Enabled(s, step) && h < |s.handles| && Counts(step)
    ensures var s' := Do(s, step);
            && s'.recycled == s.recycled && |s'.handles| == |s.handles|
            && s'.handles[h].id == s.handles[h].id && s'.handles[h].birth == s.handles[h].birth
            && s'.handles[h].total == s.handles[h].total
  {
  }

  lemma MovesLeave(s: State, step: Step, h: HandleId)
    requires Enabled(s, step) && h < |s.handles| && Moves(step)
    ensures var s' := Do(s, step);
            && s'.recycled == s.recycled && |s'.handles| == |s.handles|
            && s'.handles[h].id == s.handles[h].id && s'.handles[h].birth == s.handles[h].birth
            && s'.handles[h].total == s.handles[h].total
  {
  }

  lemma OthersLeave(s: State, step: Step)
    requires Enabled(s, step) && !Counts(step) && !Moves(step) && !step.Recycle? && !step.Grab?
    ensures Do(s, step).recycled == s.recycled && Do(s, step).handles == s.handles
  {
  }

  lemma CountsStay(s: State, step: Step, t: ThreadId)
    requires Enabled(s, step) && t in s.threads && step.t != t && Counts(step)
    ensures t in Do(s, step).threads && Do(s, step).threads[t] == s.threads[t]
  {
  }

  lemma MovesStay(s: State, step: Step, t: ThreadId)
    requires Enabled(s, step) && t in s.threads && step.t != t && Moves(step)
    ensures t in Do(s, step).threads && Do(s, step).threads[t] == s.threads[t]
    ensures (!step.Store? ==> Do(s, step).held == s.held)
  {
  }

  lemma RemovesStay(s: State, step: Step, t: ThreadId)
    requires Enabled(s, step) && t in s.threads && step.t != t && Removes(step)
    ensures t in Do(s, step).threads && Do(s, step).threads[t] == s.threads[t]
    ensures Do(s, step).held == s.held
  {
  }

  lemma InsertsStay(s: State, step: Step, t: ThreadId)
    requires Enabled(s, step) && t in s.threads && step.t != t && Inserts(step)
    ensures t in Do(s, step).threads && Do(s, step).threads[t] == s.threads[t]
    ensures Do(s, step).held == s.held
  {
  }

  lemma RestStays(s: State, step: Step, t: ThreadId)
    requires Enabled(s, step) && t in s.threads && step.t != t && !Removes(step) && !Inserts(step) && !Counts(step) && !Moves(step)
    ensures t in Do(s, step).threads && Do(s, step).threads[t] == s.threads[t]
    ensures Do(s, step).held == s.held
  {
  }

  /** A step moves its own thread only. */
  lemma OthersStay(s: State, step: Step, t: ThreadId)
    requires Enabled(s, step) && t in s.threads && step.t != t
    ensures t in Do(s, step).threads && Do(s, step).threads[t] == s.threads[t]
    ensures (Counts(step) || step.Store? || Do(s, step).held == s.held)
  {
    hide Do, Enabled;
    if Removes(step) {
      RemovesStay(s, step, t);
    } else if Inserts(step) {
      InsertsStay(s, step, t);
    } else if Counts(step) {
      CountsStay(s, step, t);
    } else if Moves(step) {
      MovesStay(s, step, t);
    } else {
      RestStays(s, step, t);
    }
  }

  lemma StaysRecycled(s: State, step: Step, h: HandleId, b: nat)
    requires Enabled(s, step) && h < |s.handles| && b in s.recycled
    ensures b in Do(s, step).recycled
  {
    hide Do, Enabled;
    if step.Recycle? {
      RecycleRecords(s, step.t);
    } else if step.Grab? {
      GrabReuses(s, step.t, step.h);
    } else if Counts(step) {
      CountsLeave(s, step, h);
    } else if Moves(step) {
      MovesLeave(s, step, h);
    } else {
      OthersLeave(s, step);
    }
  }

  lemma CanRead(s: State, t: ThreadId)
    requires t in s.threads && s.threads[t].ReadKey? && s.threads[t].h < |s.handles|
    ensures Enabled(s, Read(t))
  {
  }

  /** What is erased is what is read. */
  lemma ReadIs(s: State, t: ThreadId)
    requires Enabled(s, Read(t))
    ensures t in s.threads && s.threads[t].ReadKey? && s.threads[t].h < |s.handles|
    ensures Do(s, Read(t)) == Go(s, t, MustErase(s.handles[s.threads[t].h].id))
  {
  }

  lemma LockIs(s: State, t: ThreadId)
    requires Enabled(s, Lock(t))
    ensures t in s.threads && NeedsLock(s.threads[t])
    ensures Do(s, Lock(t)) == Go(s, t, AfterLock(s.threads[t])).(mutex := Some(t))
  {
  }
}
