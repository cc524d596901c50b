/** What comes of the calls on a SuperVersion cache: an install takes place, and a
    thread left alone gets the current SuperVersion and gives it back. */
module SuperVersionLive {
  import opened SuperVersion
  import opened SuperVersionProof

  datatype Actor = Installer | By(t: ThreadId)

  function ActorOf(step: Step): Actor {
    match step
    case BeginInstall => Installer
    case Publish => Installer
    case ScrapeOne(_) => Installer
    case EndScrape => Installer
    case UnrefScraped(_) => Installer
    case DropOld => Installer
    case CleanOld => Installer
    case EndInstall => Installer
    case _ => By(step.t)
  }

  /** A schedule leads from s to s'. */
  ghost predicate Leads(s: State, steps: seq<Step>, s': State)
    decreases |steps|
  {
    if steps == [] then s' == s
    else
      var last := |steps| - 1;
      exists p :: Leads(s, steps[..last], p) && Enabled(p, steps[last]) && s' == Do(p, steps[last])
  }

  lemma LeadsMore(s: State, steps: seq<Step>, p: State, step: Step)
    requires Leads(s, steps, p) && Enabled(p, step)
    ensures Leads(s, steps + [step], Do(p, step))
  {
    hide Do, Enabled;
    assert (steps + [step])[..|steps|] == steps;
  }

  lemma ReachesMore(steps: seq<Step>, p: State, step: Step)
    requires Reachable(p, steps) && Enabled(p, step)
    ensures Reachable(Do(p, step), steps + [step])
  {
    hide Do, Enabled;
    assert (steps + [step])[..|steps|] == steps;
  }

  lemma {:induction false} ReachesOn(s: State, before: seq<Step>, steps: seq<Step>, s': State)
    requires Reachable(s, before) && Leads(s, steps, s')
    ensures Reachable(s', before + steps)
    decreases |steps|
  {
    hide Do, Enabled;
    if steps == [] {
      assert before + steps == before;
    } else {
      var last := |steps| - 1;
      var p :| Leads(s, steps[..last], p) && Enabled(p, steps[last]) && s' == Do(p, steps[last]);
      ReachesOn(s, before, steps[..last], p);
      ReachesMore(before + steps[..last], p, steps[last]);
      assert before + steps == before + steps[..last] + [steps[last]];
    }
  }

  /** From start to s, with steps of this actor only. */
  ghost predicate Plays(start: State, who: Actor, steps: seq<Step>, s: State) {
    && Leads(start, steps, s) && Inv(s)
    && forall i :: 0 <= i < |steps| ==> ActorOf(steps[i]) == who
  }

  lemma PlayOn(start: State, who: Actor, steps: seq<Step>, s: State, step: Step) returns (steps': seq<Step>, s': State)
    requires Plays(start, who, steps, s) && Enabled(s, step) && ActorOf(step) == who
    ensures s' == Do(s, step) && Plays(start, who, steps', s') && steps' == steps + [step]
  {
    hide Do, Enabled, Inv, ActorOf;
    steps', s' := steps + [step], Do(s, step);
    LeadsMore(start, steps, s, step);
    StepKeepsInv(s, step);
  }

  lemma NoSteps(start: State, who: Actor)
    requires Inv(start)
    ensures Plays(start, who, [], start)
  {
  }

  // ---- an install ------------------------------------------------------------------

  lemma BeginIs(s: State)
    requires s.mutex == Free
    ensures Enabled(s, BeginInstall) && Do(s, BeginInstall) == s.(mutex := Entered)
  {
  }

  lemma PublishCan(s: State)
    requires s.mutex == Entered
    ensures Enabled(s, Publish)
  {
  }

  lemma ScrapeOneIs(s: State, t: ThreadId)
    requires s.mutex.Scraping? && t in s.mutex.todo && t in s.threads
    ensures Enabled(s, ScrapeOne(t))
    ensures var slot := s.threads[t].slot;
            Do(s, ScrapeOne(t)) ==
            SetSlot(s, t, Obsolete).(mutex := Scraping(s.mutex.todo - {t}), scraped := if slot.Cached? then s.scraped[t := slot.sv] else s.scraped)
  {
  }

  lemma EndScrapeIs(s: State)
    requires s.mutex == Scraping({})
    ensures Enabled(s, EndScrape) && Do(s, EndScrape) == s.(mutex := Unreffing)
  {
  }

  lemma UnrefScrapedIs(s: State, t: ThreadId)
    requires s.mutex == Unreffing && t in s.scraped
    ensures Enabled(s, UnrefScraped(t)) && Do(s, UnrefScraped(t)) == AddRefs(s, s.scraped[t], -1).(scraped := s.scraped - {t})
  {
  }

  lemma DropOldIs(s: State)
    requires s.mutex == Unreffing && s.scraped == map[] && s.previous.Some?
    ensures Enabled(s, DropOld)
    ensures var old1 := s.previous.value;
            Do(s, DropOld) == AddRefs(s, old1, -1).(previous := None, mutex := if WasLast(s, old1) then CleaningOld(old1) else Finished)
  {
  }

  lemma CleanOldIs(s: State)
    requires s.mutex.CleaningOld?
    ensures Enabled(s, CleanOld) && Do(s, CleanOld) == AddCleanup(s, s.mutex.sv).(mutex := Finished)
  {
  }

  lemma EndInstallIs(s: State)
    requires s.mutex == Finished
    ensures Enabled(s, EndInstall) && Do(s, EndInstall) == s.(mutex := Free)
  {
  }

  /** The threads are where they were. */
  ghost predicate SamePlaces(a: State, b: State) {
    && b.threads.Keys == a.threads.Keys && b.external == a.external
    && forall t :: t in a.threads ==> b.threads[t].pc == a.threads[t].pc && b.threads[t].start == a.threads[t].start
  }

  /** A new SuperVersion is current, with the next number. */
  ghost predicate Installed(a: State, b: State) {
    && SamePlaces(a, b)
    && b.number == a.number + 1 && b.current == |a.svs| && |b.svs| == |a.svs| + 1
    && b.svs[b.current].version == b.number
  }

  /** The slots of these threads have been emptied. */
  ghost predicate Emptied(s: State, ts: set<ThreadId>) {
    forall t :: t in ts && t in s.threads ==> s.threads[t].slot == Obsolete
  }

  lemma Scrape(a: State, start: State, steps: seq<Step>, s: State) returns (steps': seq<Step>, s': State)
    requires Plays(start, Installer, steps, s) && s.mutex.Scraping? && Installed(a, s) && Emptied(s, s.threads.Keys - s.mutex.todo)
    ensures Plays(start, Installer, steps', s') && steps <= steps' && s'.mutex == Unreffing && Installed(a, s') && Emptied(s', s'.threads.Keys)
    decreases |s.mutex.todo|
  {
    hide Do, Enabled, Plays, Installed, Emptied;
    if s.mutex.todo == {} {
      EndScrapeIs(s);
      steps', s' := PlayOn(start, Installer, steps, s, EndScrape);
      AllEmptied(a, s, s');
    } else {
      var t :| t in s.mutex.todo;
      TodoIsThere(start, steps, s, t);
      ScrapeOneIs(s, t);
      steps', s' := PlayOn(start, Installer, steps, s, ScrapeOne(t));
      OneMoreEmptied(a, s, t, s');
      steps', s' := Scrape(a, start, steps', s');
    }
  }

  lemma OneMoreEmptied(a: State, s: State, t: ThreadId, s': State)
    requires s.mutex.Scraping? && t in s.mutex.todo && t in s.threads && Installed(a, s) && Emptied(s, s.threads.Keys - s.mutex.todo)
    requires s' == SetSlot(s, t, Obsolete).(mutex := s'.mutex, scraped := s'.scraped) && s'.mutex == Scraping(s.mutex.todo - {t})
    ensures Installed(a, s') && Emptied(s', s'.threads.Keys - s'.mutex.todo)
  {
  }

  lemma AllEmptied(a: State, s: State, s': State)
    requires s.mutex == Scraping({}) && Installed(a, s) && Emptied(s, s.threads.Keys - s.mutex.todo) && s' == s.(mutex := Unreffing)
    ensures Installed(a, s') && Emptied(s', s'.threads.Keys)
  {
    assert s.threads.Keys - {} == s.threads.Keys;
  }

  lemma TodoIsThere(start: State, steps: seq<Step>, s: State, t: ThreadId)
    requires Plays(start, Installer, steps, s) && s.mutex.Scraping? && t in s.mutex.todo
    ensures t in s.threads
  {
    hide Counted, Slots, Fresh, Cleaned, Leads, ActorOf;
  }

  lemma Unref(a: State, start: State, steps: seq<Step>, s: State) returns (steps': seq<Step>, s': State)
    requires Plays(start, Installer, steps, s) && s.mutex == Unreffing && Installed(a, s) && Emptied(s, s.threads.Keys)
    ensures Plays(start, Installer, steps', s') && steps <= steps' && s'.mutex == Unreffing && s'.scraped == map[]
    ensures Installed(a, s') && Emptied(s', s'.threads.Keys)
    decreases |s.scraped.Keys|
  {
    hide Do, Enabled, Leads, Inv;
    if s.scraped == map[] {
      steps', s' := steps, s;
    } else {
      assert s.scraped.Keys != {};
      var t :| t in s.scraped;
      UnrefScrapedIs(s, t);
      steps', s' := PlayOn(start, Installer, steps, s, UnrefScraped(t));
      assert s'.scraped.Keys == s.scraped.Keys - {t};
      steps', s' := Unref(a, start, steps', s');
    }
  }

  lemma PreviousIsThere(s: State)
    requires Inv(s) && s.mutex == Unreffing
    ensures s.previous.Some?
  {
    hide Counted, Slots, Fresh, Cleaned;
  }

  lemma Finish(a: State, start: State, steps: seq<Step>, s: State) returns (steps': seq<Step>, s': State)
    requires Plays(start, Installer, steps, s) && s.mutex == Unreffing && s.scraped == map[]
    requires Installed(a, s) && Emptied(s, s.threads.Keys)
    ensures Plays(start, Installer, steps', s') && steps <= steps' && s'.mutex == Free && Installed(a, s') && Emptied(s', s'.threads.Keys)
  {
    hide Do, Enabled, Leads, Inv;
    PreviousIsThere(s);
    DropOldIs(s);
    steps', s' := PlayOn(start, Installer, steps, s, DropOld);
    if s'.mutex.CleaningOld? {
      CleanOldIs(s');
      steps', s' := PlayOn(start, Installer, steps', s', CleanOld);
    }
    EndInstallIs(s');
    steps', s' := PlayOn(start, Installer, steps', s', EndInstall);
  }

  /** With the mutex free an install can begin, and left alone it comes to its end: the
      SuperVersion that it has published is current, with the next number, and no thread
      has an older one in its slot. */
  lemma InstallTakesPlace(s: State, before: seq<Step>) returns (steps: seq<Step>, s': State)
    requires Reachable(s, before) && s.mutex == Free
    ensures Leads(s, steps, s') && Reachable(s', before + steps)
    ensures steps != [] && steps[0] == BeginInstall && forall i :: 0 <= i < |steps| ==> ActorOf(steps[i]) == Installer
    ensures s'.mutex == Free && s'.number == s.number + 1 && s'.current == |s.svs|
    ensures s'.current < |s'.svs| && s'.svs[s'.current].version == s'.number
    ensures s'.threads.Keys == s.threads.Keys
    ensures forall t :: t in s.threads ==> s'.threads[t].pc == s.threads[t].pc && s'.threads[t].slot == Obsolete
  {
    hide Do, Enabled, Leads, Inv, Reachable;
    ReachableInv(s, before);
    NoSteps(s, Installer);
    BeginIs(s);
    steps, s' := PlayOn(s, Installer, [], s, BeginInstall);
    PublishCan(s');
    PublishIs(s');
    NumberIsLength(s');
    steps, s' := PlayOn(s, Installer, steps, s', Publish);
    steps, s' := Scrape(s, s, steps, s');
    steps, s' := Unref(s, s, steps, s');
    steps, s' := Finish(s, s, steps, s');
    ReachesOn(s, before, steps, s');
  }

  lemma NumberIsLength(s: State)
    requires Inv(s)
    ensures |s.svs| == s.number == s.current + 1
  {
    hide Counted, Slots, Fresh, Cleaned;
  }

  // ---- a thread left alone -----------------------------------------------------------

  lemma SwapIs(s: State, t: ThreadId)
    requires t in s.threads && s.threads[t].pc == Idle
    ensures Enabled(s, Swap(t))
    ensures var slot := s.threads[t].slot;
            Do(s, Swap(t)) == s.(threads := s.threads[t := Thread(InUse, Swapped(if slot.Cached? then Some(slot.sv) else None), s.number)])
  {
  }

  lemma CheckCan(s: State, t: ThreadId)
    requires t in s.threads && s.threads[t].pc.Swapped?
    ensures Enabled(s, Check(t))
  {
  }

  lemma UnrefOutdatedCan(s: State, t: ThreadId)
    requires t in s.threads && s.threads[t].pc.Outdated?
    ensures Enabled(s, UnrefOutdated(t))
  {
  }

  predicate TakesLock(pc: Pc) {
    pc.MustLock? || pc.MustClean? || pc.MustCleanOnly?
  }

  lemma LockIs(s: State, t: ThreadId)
    requires t in s.threads && s.mutex == Free && TakesLock(s.threads[t].pc)
    ensures Enabled(s, Lock(t))
    ensures var pc := s.threads[t].pc;
            var pc' := if pc.MustLock? then Locked else if pc.MustClean? then CleaningLocked(pc.sv) else CleaningOnly(pc.sv);
            Do(s, Lock(t)) == SetPc(s, t, pc').(mutex := Reader(t))
  {
  }

  lemma CleanIs(s: State, t: ThreadId)
    requires t in s.threads && (s.threads[t].pc.CleaningLocked? || s.threads[t].pc.CleaningOnly?)
    ensures Enabled(s, Clean(t))
    ensures var pc := s.threads[t].pc;
            Do(s, Clean(t)) == AddCleanup(SetPc(s, t, if pc.CleaningLocked? then Locked else UnlockOnly), pc.sv)
  {
  }

  lemma RefCurrentIs(s: State, t: ThreadId)
    requires t in s.threads && s.threads[t].pc.Locked?
    ensures Enabled(s, RefCurrent(t)) && Do(s, RefCurrent(t)) == AddRefs(SetPc(s, t, LockedRef(s.current)), s.current, 1)
  {
  }

  lemma UnlockIs(s: State, t: ThreadId)
    requires t in s.threads && (s.threads[t].pc.LockedRef? || s.threads[t].pc.UnlockOnly?)
    ensures Enabled(s, Unlock(t))
    ensures var pc := s.threads[t].pc;
            Do(s, Unlock(t)) == SetPc(s, t, if pc.LockedRef? then Using(pc.sv) else Idle).(mutex := Free)
  {
  }

  /** Only thread t has moved, and nothing has been installed. */
  ghost predicate OnlyMoved(a: State, b: State, t: ThreadId) {
    && t in a.threads && t in b.threads && b.threads == a.threads[t := b.threads[t]]
    && b.current == a.current && b.number == a.number && |b.svs| == |a.svs|
  }

  lemma IdleSlot(s: State, t: ThreadId)
    requires Inv(s) && s.mutex == Free && t in s.threads && s.threads[t].pc == Idle
    ensures s.threads[t].slot == Obsolete || s.threads[t].slot == Cached(s.current)
    ensures s.current < |s.svs| && s.svs[s.current].version == s.number
  {
    hide Counted, Fresh, Cleaned;
  }

  /** The way without the lock. */
  lemma GetCached(s: State, t: ThreadId) returns (steps: seq<Step>, s': State)
    requires Inv(s) && s.mutex == Free && t in s.threads && s.threads[t].pc == Idle && s.threads[t].slot.Cached?
    ensures Plays(s, By(t), steps, s') && s'.mutex == Free && OnlyMoved(s, s', t)
    ensures s'.threads[t].pc == Using(s.current) && s'.threads[t].slot == InUse && s'.svs == s.svs && s'.external == s.external
  {
    hide Do, Enabled, Leads, Inv;
    IdleSlot(s, t);
    NoSteps(s, By(t));
    SwapIs(s, t);
    steps, s' := PlayOn(s, By(t), [], s, Swap(t));
    CheckCan(s', t);
    CheckIs(s', t);
    steps, s' := PlayOn(s, By(t), steps, s', Check(t));
  }

  /** The way to the lock. */
  lemma GetOutdated(s: State, t: ThreadId) returns (steps: seq<Step>, s': State)
    requires Inv(s) && s.mutex == Free && t in s.threads && s.threads[t].pc == Idle && s.threads[t].slot == Obsolete
    ensures Plays(s, By(t), steps, s') && s'.mutex == Reader(t) && OnlyMoved(s, s', t)
    ensures s'.threads[t].pc == Locked && s'.threads[t].slot == InUse && s'.svs == s.svs && s'.external == s.external
  {
    hide Do, Enabled, Leads, Inv;
    NoSteps(s, By(t));
    SwapIs(s, t);
    steps, s' := PlayOn(s, By(t), [], s, Swap(t));
    CheckCan(s', t);
    CheckIs(s', t);
    steps, s' := PlayOn(s, By(t), steps, s', Check(t));
    UnrefOutdatedCan(s', t);
    UnrefOutdatedIs(s', t);
    steps, s' := PlayOn(s, By(t), steps, s', UnrefOutdated(t));
    LockIs(s', t);
    steps, s' := PlayOn(s, By(t), steps, s', Lock(t));
  }

  /** With the mutex free, GetThreadLocalSuperVersion left alone returns the current
      SuperVersion, from the slot if it is there; otherwise with a reference of its own. */
  lemma GetAlone(s: State, t: ThreadId) returns (steps: seq<Step>, s': State)
    requires Inv(s) && s.mutex == Free && t in s.threads && s.threads[t].pc == Idle
    ensures Plays(s, By(t), steps, s') && s'.mutex == Free && OnlyMoved(s, s', t)
    ensures s'.threads[t].pc == Using(s.current) && s'.threads[t].slot == InUse && s'.external == s.external
    ensures Refs(s', s.current) == Refs(s, s.current) + if s.threads[t].slot.Cached? then 0 else 1
  {
    hide Do, Enabled, Leads, Inv;
    IdleSlot(s, t);
    if s.threads[t].slot.Cached? {
      steps, s' := GetCached(s, t);
    } else {
      steps, s' := GetOutdated(s, t);
      RefCurrentIs(s', t);
      steps, s' := PlayOn(s, By(t), steps, s', RefCurrent(t));
      UnlockIs(s', t);
      steps, s' := PlayOn(s, By(t), steps, s', Unlock(t));
    }
  }

  lemma SpawnIs(s: State, t: ThreadId)
    requires t !in s.threads && !s.mutex.Scraping?
    ensures Enabled(s, Spawn(t)) && Do(s, Spawn(t)) == s.(threads := s.threads[t := Thread(Obsolete, Idle, 0)])
  {
  }

  /** A thread that comes anew gets the current SuperVersion with a reference of its own. */
  lemma NewcomerGets(s: State, t: ThreadId) returns (steps: seq<Step>, s': State)
    requires Inv(s) && s.mutex == Free && t !in s.threads
    ensures Leads(s, [Spawn(t)] + steps, s') && Inv(s') && s'.mutex == Free
    ensures s'.threads.Keys == s.threads.Keys + {t} && (forall u :: u in s.threads ==> s'.threads[u] == s.threads[u])
    ensures s'.threads[t].pc == Using(s.current) && Refs(s', s.current) == Refs(s, s.current) + 1
  {
    hide Do, Enabled, Inv, Leads;
    SpawnIs(s, t);
    StepKeepsInv(s, Spawn(t));
    steps, s' := GetAlone(Do(s, Spawn(t)), t);
    LeadsFrom(s, Spawn(t), steps, s');
  }

  lemma ExitCan(s: State, t: ThreadId)
    requires t in s.threads && s.threads[t].pc == Idle && !s.mutex.Scraping?
    ensures Enabled(s, Exit(t))
  {
  }

  /** A thread that goes takes its slot, and the reference in it, along. */
  lemma ExitAlone(s: State, t: ThreadId) returns (s': State)
    requires Inv(s) && s.mutex == Free && t in s.threads && s.threads[t].pc == Idle
    ensures Enabled(s, Exit(t)) && s' == Do(s, Exit(t)) && Inv(s')
    ensures s'.threads == s.threads - {t} && s'.current == s.current && s'.mutex == Free
    ensures Refs(s', s.current) == Refs(s, s.current) - if s.threads[t].slot.Cached? then 1 else 0
  {
    hide Do, Enabled, Inv;
    IdleSlot(s, t);
    ExitCan(s, t);
    ExitIs(s, t);
    StepKeepsInv(s, Exit(t));
    s' := Do(s, Exit(t));
  }

  /** After an install, a thread that was idle gets what was installed. */
  lemma GetsTheInstalled(s: State, before: seq<Step>, t: ThreadId) returns (steps: seq<Step>, s': State, more: seq<Step>, s'': State)
    requires Reachable(s, before) && s.mutex == Free && t in s.threads && s.threads[t].pc == Idle
    ensures Leads(s, steps, s') && (forall i :: 0 <= i < |steps| ==> ActorOf(steps[i]) == Installer)
    ensures s'.mutex == Free && s'.current == |s.svs| && s'.number == s.number + 1
    ensures Leads(s', more, s'') && (forall i :: 0 <= i < |more| ==> ActorOf(more[i]) == By(t)) && Reachable(s'', before + steps + more)
    ensures t in s''.threads && s''.threads[t].pc == Using(s'.current) && s''.mutex == Free
  {
    hide Do, Enabled, Leads, Inv, Reachable;
    steps, s' := InstallTakesPlace(s, before);
    ReachableInv(s', before + steps);
    more, s'' := GetAlone(s', t);
    ReachesOn(s', before + steps, more, s'');
  }

  // ---- giving it back --------------------------------------------------------------------

  lemma ReturnIs(s: State, t: ThreadId)
    requires t in s.threads && s.threads[t].pc.Using?
    ensures Enabled(s, Return(t))
    ensures var sv := s.threads[t].pc.sv;
            Do(s, Return(t)) == if s.threads[t].slot == InUse then PutBack(s, t, sv) else SetPc(s, t, Releasing(sv))
  {
  }

  lemma UnrefReleasingIs(s: State, t: ThreadId)
    requires t in s.threads && s.threads[t].pc.Releasing?
    ensures Enabled(s, UnrefReleasing(t))
    ensures var sv := s.threads[t].pc.sv;
            Do(s, UnrefReleasing(t)) == AddRefs(SetPc(s, t, if WasLast(s, sv) then MustCleanOnly(sv) else Idle), sv, -1)
  {
  }

  lemma HandIsThere(s: State, t: ThreadId)
    requires Inv(s) && t in s.threads && HandOf(s.threads[t].pc).Some?
    ensures var sv := HandOf(s.threads[t].pc).value; sv < |s.svs| && s.svs[sv].refs >= 1 && s.svs[sv].cleanups == 0
  {
    hide Fresh, Slots, Holders;
    var sv := HandOf(s.threads[t].pc).value;
    assert Holds(s, InHand(t)) == Some(sv);
    OneHolder(s, sv, InHand(t));
  }

  /** A reference that is given up is gone, and the last one takes the cleanup with it. */
  lemma ReleaseAlone(s: State, t: ThreadId) returns (steps: seq<Step>, s': State)
    requires Inv(s) && s.mutex == Free && t in s.threads && s.threads[t].pc.Releasing?
    ensures Plays(s, By(t), steps, s') && s'.mutex == Free && OnlyMoved(s, s', t)
    ensures s'.threads[t] == s.threads[t].(pc := Idle) && s'.external == s.external
    ensures var sv := s.threads[t].pc.sv;
            sv < |s.svs| && s'.svs[sv].refs == s.svs[sv].refs - 1 && s'.svs[sv].cleanups == if s.svs[sv].refs == 1 then 1 else 0
  {
    hide Do, Enabled, Leads, Inv;
    HandIsThere(s, t);
    NoSteps(s, By(t));
    UnrefReleasingIs(s, t);
    steps, s' := PlayOn(s, By(t), [], s, UnrefReleasing(t));
    if s'.threads[t].pc.MustCleanOnly? {
      LockIs(s', t);
      steps, s' := PlayOn(s, By(t), steps, s', Lock(t));
      CleanIs(s', t);
      steps, s' := PlayOn(s, By(t), steps, s', Clean(t));
      UnlockIs(s', t);
      steps, s' := PlayOn(s, By(t), steps, s', Unlock(t));
    }
  }

  /** ReturnThreadLocalSuperVersion left alone: the SuperVersion goes back into the slot,
      or, if an install has emptied that meanwhile, the reference is given up. */
  lemma ReturnAlone(s: State, t: ThreadId) returns (steps: seq<Step>, s': State)
    requires Inv(s) && s.mutex == Free && t in s.threads && s.threads[t].pc.Using?
    ensures Leads(s, steps, s') && Inv(s') && s'.mutex == Free && OnlyMoved(s, s', t) && s'.threads[t].pc == Idle && s'.external == s.external
    ensures var sv := s.threads[t].pc.sv;
            if s.threads[t].slot == InUse then s'.threads[t].slot == Cached(sv) && s'.svs == s.svs
            else
              && s'.threads[t].slot == s.threads[t].slot && sv < |s.svs| && s'.svs[sv].refs == s.svs[sv].refs - 1
              && s'.svs[sv].cleanups == if s.svs[sv].refs == 1 then 1 else 0
  {
    hide Do, Enabled, Inv;
    NoSteps(s, By(t));
    ReturnIs(s, t);
    var first, p := PlayOn(s, By(t), [], s, Return(t));
    if s.threads[t].slot == InUse {
      steps, s' := first, p;
    } else {
      var more;
      more, s' := ReleaseAlone(p, t);
      LeadsOn(s, first, p, more, s');
      steps := first + more;
    }
  }

  lemma {:induction false} LeadsOn(s: State, steps: seq<Step>, p: State, more: seq<Step>, s': State)
    requires Leads(s, steps, p) && Leads(p, more, s')
    ensures Leads(s, steps + more, s')
    decreases |more|
  {
    hide Do, Enabled;
    if more == [] {
      assert steps + more == steps;
    } else {
      var last := |more| - 1;
      var q :| Leads(p, more[..last], q) && Enabled(q, more[last]) && s' == Do(q, more[last]);
      LeadsOn(s, steps, p, more[..last], q);
      LeadsMore(s, steps + more[..last], q, more[last]);
      assert steps + more == steps + more[..last] + [more[last]];
    }
  }

  lemma TakeRefIs(s: State, t: ThreadId)
    requires t in s.threads && s.threads[t].pc.Using?
    ensures Enabled(s, TakeRef(t)) && Do(s, TakeRef(t)) == AddRefs(SetPc(s, t, Referenced(s.threads[t].pc.sv)), s.threads[t].pc.sv, 1)
  {
  }

  lemma ReturnRefCan(s: State, t: ThreadId, n: nat)
    requires t in s.threads && s.threads[t].pc.Referenced? && n !in s.external
    ensures Enabled(s, ReturnRef(t, n))
  {
  }

  lemma DropLostCan(s: State, t: ThreadId, n: nat)
    requires t in s.threads && s.threads[t].pc.ReferencedLost? && n !in s.external
    ensures Enabled(s, DropLost(t, n))
  {
  }

  /** The rest of GetReferencedSuperVersion: the caller has a reference of its own, and
      the slot has its SuperVersion back, unless an install has emptied it. */
  lemma ReferenceAlone(s: State, t: ThreadId, n: nat) returns (steps: seq<Step>, s': State)
    requires Inv(s) && t in s.threads && s.threads[t].pc.Using? && n !in s.external
    ensures Plays(s, By(t), steps, s') && s'.mutex == s.mutex && OnlyMoved(s, s', t) && s'.threads[t].pc == Idle
    ensures var sv := s.threads[t].pc.sv;
            && s'.external == s.external[n := sv]
            && Refs(s', sv) == Refs(s, sv) + (if s.threads[t].slot == InUse then 1 else 0)
            && s'.threads[t].slot == if s.threads[t].slot == InUse then Cached(sv) else s.threads[t].slot
  {
    hide Do, Enabled, Leads, Inv;
    HandIsThere(s, t);
    NoSteps(s, By(t));
    TakeRefIs(s, t);
    steps, s' := PlayOn(s, By(t), [], s, TakeRef(t));
    ReturnRefCan(s', t, n);
    ReturnRefIs(s', t, n);
    steps, s' := PlayOn(s, By(t), steps, s', ReturnRef(t, n));
    if s'.threads[t].pc.ReferencedLost? {
      DropLostCan(s', t, n);
      DropLostIs(s', t, n);
      steps, s' := PlayOn(s, By(t), steps, s', DropLost(t, n));
    }
  }

  lemma PickExternalIs(s: State, t: ThreadId, n: nat)
    requires t in s.threads && s.threads[t].pc == Idle && n in s.external
    ensures Enabled(s, PickExternal(t, n))
    ensures Do(s, PickExternal(t, n)) == SetPc(s, t, Releasing(s.external[n])).(external := s.external - {n})
  {
  }

  /** CleanupSuperVersion on such a reference, left alone, gives it up. */
  lemma CleanupAlone(s: State, t: ThreadId, n: nat) returns (steps: seq<Step>, s': State)
    requires Inv(s) && s.mutex == Free && t in s.threads && s.threads[t].pc == Idle && n in s.external
    ensures Leads(s, steps, s') && Inv(s') && s'.mutex == Free && s'.threads == s.threads && s'.external == s.external - {n}
    ensures var sv := s.external[n];
            sv < |s.svs| == |s'.svs| && s'.svs[sv].refs == s.svs[sv].refs - 1 && s'.svs[sv].cleanups == if s.svs[sv].refs == 1 then 1 else 0
  {
    hide Do, Enabled, Inv;
    NoSteps(s, By(t));
    PickExternalIs(s, t, n);
    var first, p := PlayOn(s, By(t), [], s, PickExternal(t, n));
    var more;
    more, s' := ReleaseAlone(p, t);
    LeadsOn(s, first, p, more, s');
    steps := first + more;
  }

  // ---- the end -----------------------------------------------------------------------------

  /** What a thread in a call does next; n names a reference that it may hand out. */
  function NextStep(t: ThreadId, pc: Pc, n: nat): Step
    requires pc != Idle
  {
    match pc
    case Swapped(_) => Check(t)
    case Outdated(_) => UnrefOutdated(t)
    case MustLock => Lock(t)
    case MustClean(_) => Lock(t)
    case CleaningLocked(_) => Clean(t)
    case Locked => RefCurrent(t)
    case LockedRef(_) => Unlock(t)
    case Using(_) => Return(t)
    case Referenced(_) => ReturnRef(t, n)
    case ReferencedLost(_) => DropLost(t, n)
    case Releasing(_) => UnrefReleasing(t)
    case MustCleanOnly(_) => Lock(t)
    case CleaningOnly(_) => Clean(t)
    case UnlockOnly => Unlock(t)
  }

  /** How far a thread is from the end of its calls. */
  function Rank(pc: Pc): nat {
    match pc
    case Swapped(_) => 13
    case Outdated(_) => 12
    case MustClean(_) => 11
    case CleaningLocked(_) => 10
    case MustLock => 9
    case Locked => 8
    case LockedRef(_) => 7
    case Using(_) => 6
    case Referenced(_) => 6
    case ReferencedLost(_) => 5
    case Releasing(_) => 4
    case MustCleanOnly(_) => 3
    case CleaningOnly(_) => 2
    case UnlockOnly => 1
    case Idle => 0
  }

  /** Nobody else has the mutex. */
  predicate Unhindered(s: State, t: ThreadId) {
    s.mutex == Free || s.mutex == Reader(t)
  }

  /** The step of t leaves the others alone. */
  ghost predicate Goes(s: State, s': State, t: ThreadId) {
    && t in s.threads && t in s'.threads && s'.threads == s.threads[t := s'.threads[t]]
    && Rank(s'.threads[t].pc) < Rank(s.threads[t].pc) && (s'.mutex == Free || s'.mutex == Reader(t))
  }

  lemma LockingGoes(s: State, t: ThreadId, n: nat)
    requires Shape(s) && t in s.threads && TakesLock(s.threads[t].pc) && Unhindered(s, t)
    ensures Enabled(s, NextStep(t, s.threads[t].pc, n)) && Goes(s, Do(s, NextStep(t, s.threads[t].pc, n)), t)
  {
    hide Do, Enabled;
    assert HasLock(s.threads[t].pc) <==> s.mutex == Reader(t);
    LockIs(s, t);
  }

  lemma LockedGoes(s: State, t: ThreadId, n: nat)
    requires t in s.threads && HasLock(s.threads[t].pc) && Unhindered(s, t)
    ensures Enabled(s, NextStep(t, s.threads[t].pc, n)) && Goes(s, Do(s, NextStep(t, s.threads[t].pc, n)), t)
  {
    hide Do, Enabled;
    var pc := s.threads[t].pc;
    if pc.Locked? {
      RefCurrentIs(s, t);
    } else if pc.LockedRef? || pc.UnlockOnly? {
      UnlockIs(s, t);
    } else {
      CleanIs(s, t);
    }
  }

  lemma FreelyGoes(s: State, t: ThreadId, n: nat)
    requires t in s.threads && s.threads[t].pc != Idle && Unhindered(s, t) && n !in s.external
    requires !TakesLock(s.threads[t].pc) && !HasLock(s.threads[t].pc)
    ensures Enabled(s, NextStep(t, s.threads[t].pc, n)) && Goes(s, Do(s, NextStep(t, s.threads[t].pc, n)), t)
  {
    hide Do, Enabled;
    match s.threads[t].pc
    case Swapped(_) => CheckCan(s, t); CheckIs(s, t);
    case Outdated(_) => UnrefOutdatedCan(s, t); UnrefOutdatedIs(s, t);
    case Using(_) => ReturnIs(s, t);
    case Referenced(_) => ReturnRefCan(s, t, n); ReturnRefIs(s, t, n);
    case ReferencedLost(_) => DropLostCan(s, t, n); DropLostIs(s, t, n);
    case Releasing(_) => UnrefReleasingIs(s, t);
  }

  lemma {:induction false} FreshName(names: set<nat>) returns (n: nat)
    ensures forall x :: x in names ==> x < n
    decreases |names|
  {
    if names == {} {
      n := 0;
    } else {
      var x :| x in names;
      n := FreshName(names - {x});
      assert names == names - {x} + {x};
      n := if x < n then n else x + 1;
    }
  }

  /** A thread left alone comes to the end of its calls. */
  lemma ThreadRests(s: State, t: ThreadId) returns (steps: seq<Step>, s': State)
    requires Inv(s) && t in s.threads && Unhindered(s, t)
    ensures Leads(s, steps, s') && Inv(s') && s'.mutex == Free
    ensures t in s'.threads && s'.threads == s.threads[t := s'.threads[t]] && s'.threads[t].pc == Idle
    decreases Rank(s.threads[t].pc)
  {
    hide Do, Enabled, Counted, Slots, Fresh, Cleaned, Shape, Rank, NextStep;
    if s.threads[t].pc == Idle {
      steps, s' := [], s;
      IdleHasNoLock(s, t);
    } else {
      var n := FreshName(s.external.Keys);
      var step := NextStep(t, s.threads[t].pc, n);
      if TakesLock(s.threads[t].pc) {
        LockingGoes(s, t, n);
      } else if HasLock(s.threads[t].pc) {
        LockedGoes(s, t, n);
      } else {
        FreelyGoes(s, t, n);
      }
      StepKeepsInv(s, step);
      var more;
      more, s' := ThreadRests(Do(s, step), t);
      LeadsFrom(s, step, more, s');
      steps := [step] + more;
    }
  }

  lemma IdleHasNoLock(s: State, t: ThreadId)
    requires Inv(s) && t in s.threads && s.threads[t].pc == Idle && Unhindered(s, t)
    ensures s.mutex == Free
  {
    hide Counted, Slots, Fresh, Cleaned;
    assert !HasLock(s.threads[t].pc);
  }

  lemma LeadsFrom(s: State, step: Step, more: seq<Step>, s': State)
    requires Enabled(s, step) && Leads(Do(s, step), more, s')
    ensures Leads(s, [step] + more, s')
  {
    hide Do, Enabled;
    LeadsMore(s, [], s, step);
    assert [] + [step] == [step];
    LeadsOn(s, [step], Do(s, step), more, s');
  }

  /** How far an installer is from its end. */
  function InstallRank(m: Mutex): nat {
    match m
    case Entered => 5
    case Scraping(_) => 4
    case Unreffing => 3
    case CleaningOld(_) => 2
    case Finished => 1
    case _ => 0
  }

  function InstallLeft(s: State): nat {
    if s.mutex.Scraping? then |s.mutex.todo| else if s.mutex == Unreffing then |s.scraped.Keys| else 0
  }

  /** An installer left alone comes to its end. */
  lemma InstallerRests(s: State) returns (steps: seq<Step>, s': State)
    requires Inv(s) && !s.mutex.Reader?
    ensures Leads(s, steps, s') && Inv(s') && s'.mutex == Free && SamePlaces(s, s')
    decreases InstallRank(s.mutex), InstallLeft(s)
  {
    hide Do, Enabled, Inv, SamePlaces;
    if s.mutex == Free {
      steps, s' := [], s;
      SamePlace(s);
    } else {
      var step := InstallerGoes(s);
      StepKeepsInv(s, step);
      var more;
      more, s' := InstallerRests(Do(s, step));
      LeadsFrom(s, step, more, s');
      steps := [step] + more;
      SamePlacesTwice(s, Do(s, step), s');
    }
  }

  lemma SamePlace(s: State)
    ensures SamePlaces(s, s)
  {
  }

  lemma SamePlacesTwice(a: State, b: State, c: State)
    requires SamePlaces(a, b) && SamePlaces(b, c)
    ensures SamePlaces(a, c)
  {
  }

  /** The installer has come nearer to its end. */
  ghost predicate Nearer(s: State, s': State) {
    && !s'.mutex.Reader? && SamePlaces(s, s')
    && (|| InstallRank(s'.mutex) < InstallRank(s.mutex)
        || (InstallRank(s'.mutex) == InstallRank(s.mutex) && InstallLeft(s') < InstallLeft(s)))
  }

  lemma ScraperGoes(s: State) returns (step: Step)
    requires Shape(s) && s.mutex.Scraping?
    ensures Enabled(s, step) && Nearer(s, Do(s, step))
  {
    hide Do, Enabled, Shape, Nearer;
    if s.mutex.todo == {} {
      EndScrapeIs(s);
      step := EndScrape;
      EndIsNearer(s, Do(s, step));
    } else {
      var t :| t in s.mutex.todo;
      ToScrape(s, t);
      ScrapeOneIs(s, t);
      step := ScrapeOne(t);
      OneIsNearer(s, t, Do(s, step));
    }
  }

  lemma EndIsNearer(s: State, s': State)
    requires s.mutex.Scraping? && s' == s.(mutex := Unreffing)
    ensures Nearer(s, s')
  {
  }

  lemma OneIsNearer(s: State, t: ThreadId, s': State)
    requires s.mutex.Scraping? && t in s.mutex.todo && t in s.threads
    requires s' == SetSlot(s, t, Obsolete).(mutex := s'.mutex, scraped := s'.scraped) && s'.mutex == Scraping(s.mutex.todo - {t})
    ensures Nearer(s, s')
  {
    FewerLeft(s.mutex.todo, t);
  }

  lemma FewerLeft(todo: set<ThreadId>, t: ThreadId)
    requires t in todo
    ensures |todo - {t}| < |todo|
  {
  }

  lemma ToScrape(s: State, t: ThreadId)
    requires Shape(s) && s.mutex.Scraping? && t in s.mutex.todo
    ensures t in s.threads
  {
  }

  lemma UnrefferGoes(s: State) returns (step: Step)
    requires Shape(s) && s.mutex == Unreffing
    ensures Enabled(s, step) && Nearer(s, Do(s, step))
  {
    hide Do, Enabled;
    if s.scraped == map[] {
      DropOldIs(s);
      step := DropOld;
    } else {
      assert s.scraped.Keys != {};
      var t :| t in s.scraped;
      UnrefScrapedIs(s, t);
      assert (s.scraped - {t}).Keys == s.scraped.Keys - {t};
      step := UnrefScraped(t);
    }
  }

  lemma InstallerGoes(s: State) returns (step: Step)
    requires Inv(s) && !s.mutex.Reader? && s.mutex != Free
    ensures Enabled(s, step) && Nearer(s, Do(s, step))
  {
    hide Do, Enabled, Counted, Slots, Fresh, Cleaned, Shape;
    match s.mutex
    case Entered =>
      PublishCan(s);
      PublishIs(s);
      step := Publish;
    case Scraping(_) => step := ScraperGoes(s);
    case Unreffing => step := UnrefferGoes(s);
    case CleaningOld(_) =>
      CleanOldIs(s);
      step := CleanOld;
    case Finished =>
      EndInstallIs(s);
      step := EndInstall;
  }

  /** The threads that are in a call. */
  function Busy(s: State): set<ThreadId> {
    set t | t in s.threads && s.threads[t].pc != Idle
  }

  lemma AllRest(s: State) returns (steps: seq<Step>, s': State)
    requires Inv(s) && s.mutex == Free
    ensures Leads(s, steps, s') && s'.mutex == Free && Busy(s') == {}
    decreases |Busy(s)|
  {
    hide Inv, Do, Enabled;
    if Busy(s) == {} {
      steps, s' := [], s;
    } else {
      var t :| t in Busy(s);
      var p;
      steps, p := ThreadRests(s, t);
      assert Busy(p) == Busy(s) - {t};
      var more;
      more, s' := AllRest(p);
      LeadsOn(s, steps, p, more, s');
      steps := steps + more;
    }
  }

  /** From every state of every run everything can come to rest: nobody waits for
      something that cannot happen. */
  lemma RestIsReachable(s: State, before: seq<Step>) returns (steps: seq<Step>, s': State)
    requires Reachable(s, before)
    ensures Leads(s, steps, s') && Reachable(s', before + steps) && s'.mutex == Free && forall t :: t in s'.threads ==> s'.threads[t].pc == Idle
  {
    hide Inv, Do, Enabled, Reachable, Leads;
    ReachableInv(s, before);
    var p;
    if s.mutex.Reader? {
      ReaderIsThere(s);
      steps, p := ThreadRests(s, s.mutex.t);
    } else {
      steps, p := InstallerRests(s);
    }
    var more;
    more, s' := AllRest(p);
    LeadsOn(s, steps, p, more, s');
    steps := steps + more;
    ReachesOn(s, before, steps, s');
    assert forall t :: t in s'.threads ==> t !in Busy(s');
  }

  lemma ReaderIsThere(s: State)
    requires Inv(s) && s.mutex.Reader?
    ensures s.mutex.t in s.threads
  {
    hide Counted, Slots, Fresh, Cleaned;
  }

  lemma QuietHolders(s: State, sv: SvId)
    requires Inv(s) && s.mutex == Free && s.external == map[] && sv != s.current
    requires forall t :: t in s.threads ==> s.threads[t].pc == Idle
    ensures Holders(s, sv) == {}
  {
    hide Counted, Fresh, Cleaned, Holders;
    forall k: Token ensures k !in Holders(s, sv) {
      HoldersAre(s, sv, k);
    }
  }

  /** When nobody is at work and nobody has a reference of its own, every SuperVersion but
      the current one has been cleaned up, once. */
  lemma QuietIsClean(s: State, steps: seq<Step>, sv: SvId)
    requires Reachable(s, steps) && s.mutex == Free && s.external == map[]
    requires forall t :: t in s.threads ==> s.threads[t].pc == Idle
    requires sv < |s.svs| && sv != s.current
    ensures s.svs[sv].refs == 0 && s.svs[sv].cleanups == 1
  {
    ReachableInv(s, steps);
    hide Reachable, Fresh, Shape, Slots, Holders;
    QuietHolders(s, sv);
    assert forall c: Cleaner :: Cleaning(s, c) == None;
  }
}
