/** The thread-local SuperVersion cache (db/column_family.cc), as a state machine
    over the atomic steps of readers, of one installer at a time, and of exiting
    threads. Steps of different threads interleave arbitrarily. */
module SuperVersion {

  datatype Option<+T> = None | Some(value: T)

  /** A SuperVersion is named by its place in the order of installation. */
  type SvId = nat
  type ThreadId = nat

  datatype Sv = Sv(version: nat, refs: int, cleanups: nat)

  /** A thread's local_sv_: kSVObsolete, kSVInUse, or a cached pointer. */
  datatype Slot = Obsolete | InUse | Cached(sv: SvId)

  /** What a thread does next. */
  datatype Pc =
    | Idle
    // GetThreadLocalSuperVersion
    | Swapped(ptr: Option<SvId>)  // compare version numbers
    | Outdated(ptr: Option<SvId>)  // unref the pointer, if there is one
    | MustLock  // lock the DB mutex
    | MustClean(sv: SvId)  // lock the DB mutex to clean up
    | CleaningLocked(sv: SvId)  // Cleanup
    | Locked  // ref super_version_
    | LockedRef(sv: SvId)  // unlock
    | Using(sv: SvId)  // the call has returned
    // GetReferencedSuperVersion
    | Referenced(sv: SvId)  // return the thread-local reference
    | ReferencedLost(sv: SvId)  // unref it instead
    // CleanupSuperVersion
    | Releasing(sv: SvId)  // unref
    | MustCleanOnly(sv: SvId)  // lock the DB mutex to clean up
    | CleaningOnly(sv: SvId)  // Cleanup
    | UnlockOnly  // unlock

  /** `start` is super_version_number_ when the thread last entered
      GetThreadLocalSuperVersion. */
  datatype Thread = Thread(slot: Slot, pc: Pc, start: nat)

  /** Who holds the DB mutex; for an installer, how far it has come. */
  datatype Mutex =
    | Free
    | Reader(t: ThreadId)
    | Entered  // publish the new SuperVersion
    | Scraping(todo: set<ThreadId>)  // exchange the slots, holding the thread-local mutex
    | Unreffing  // unref the scraped pointers, then the old SuperVersion
    | CleaningOld(sv: SvId)  // Cleanup
    | Finished  // unlock

  datatype State = State(
    svs: seq<Sv>,
    current: SvId,  // super_version_
    number: nat,  // super_version_number_
    threads: map<ThreadId, Thread>,
    mutex: Mutex,
    previous: Option<SvId>,  // old_superversion
    scraped: map<ThreadId, SvId>,  // pointers taken out of slots
    external: map<nat, SvId>)  // references handed out by GetReferencedSuperVersion

  datatype Step =
    | Spawn(t: ThreadId)
    | Exit(t: ThreadId)
    | Swap(t: ThreadId)
    | Check(t: ThreadId)
    | UnrefOutdated(t: ThreadId)
    | Lock(t: ThreadId)
    | Clean(t: ThreadId)
    | RefCurrent(t: ThreadId)
    | Unlock(t: ThreadId)
    | Return(t: ThreadId)
    | TakeRef(t: ThreadId)
    | ReturnRef(t: ThreadId, n: nat)
    | DropLost(t: ThreadId, n: nat)
    | PickExternal(t: ThreadId, n: nat)
    | UnrefReleasing(t: ThreadId)
    | BeginInstall
    | Publish
    | ScrapeOne(t: ThreadId)
    | EndScrape
    | UnrefScraped(t: ThreadId)
    | DropOld
    | CleanOld
    | EndInstall

  /** One SuperVersion installed, no threads. */
  function Init(): State {
    State([Sv(1, 1, 0)], 0, 1, map[], Free, None, map[], map[])
  }

  predicate At(s: State, t: ThreadId) {
    t in s.threads
  }

  predicate Enabled(s: State, step: Step) {
    match step
    case Spawn(t) => !At(s, t) && !s.mutex.Scraping?
    case Exit(t) => At(s, t) && s.threads[t].pc == Idle && !s.mutex.Scraping?
    case Swap(t) => At(s, t) && s.threads[t].pc == Idle
    case Check(t) => At(s, t) && s.threads[t].pc.Swapped?
    case UnrefOutdated(t) => At(s, t) && s.threads[t].pc.Outdated?
    case Lock(t) => At(s, t) && s.mutex == Free && (var pc := s.threads[t].pc; pc.MustLock? || pc.MustClean? || pc.MustCleanOnly?)
    case Clean(t) => At(s, t) && (s.threads[t].pc.CleaningLocked? || s.threads[t].pc.CleaningOnly?)
    case RefCurrent(t) => At(s, t) && s.threads[t].pc.Locked?
    case Unlock(t) => At(s, t) && (s.threads[t].pc.LockedRef? || s.threads[t].pc.UnlockOnly?)
    case Return(t) => At(s, t) && s.threads[t].pc.Using?
    case TakeRef(t) => At(s, t) && s.threads[t].pc.Using?
    case ReturnRef(t, n) => At(s, t) && s.threads[t].pc.Referenced? && n !in s.external
    case DropLost(t, n) => At(s, t) && s.threads[t].pc.ReferencedLost? && n !in s.external
    case PickExternal(t, n) => At(s, t) && s.threads[t].pc == Idle && n in s.external
    case UnrefReleasing(t) => At(s, t) && s.threads[t].pc.Releasing?
    case BeginInstall => s.mutex == Free
    case Publish => s.mutex == Entered
    case ScrapeOne(t) => s.mutex.Scraping? && t in s.mutex.todo && At(s, t)
    case EndScrape => s.mutex.Scraping? && s.mutex.todo == {}
    case UnrefScraped(t) => s.mutex == Unreffing && t in s.scraped
    case DropOld => s.mutex == Unreffing && s.scraped == map[] && s.previous.Some?
    case CleanOld => s.mutex.CleaningOld?
    case EndInstall => s.mutex == Finished
  }

  // ---- the effect of a step ------------------------------------------------

  function AddRefs(s: State, sv: SvId, d: int): State {
    if sv < |s.svs| then s.(svs := s.svs[sv := s.svs[sv].(refs := s.svs[sv].refs + d)]) else s
  }

  function AddCleanup(s: State, sv: SvId): State {
    if sv < |s.svs| then s.(svs := s.svs[sv := s.svs[sv].(cleanups := s.svs[sv].cleanups + 1)]) else s
  }

  function Refs(s: State, sv: SvId): int {
    if sv < |s.svs| then s.svs[sv].refs else 0
  }

  /** Unref() returns whether this was the last reference. */
  predicate WasLast(s: State, sv: SvId) {
    Refs(s, sv) == 1
  }

  function SetPc(s: State, t: ThreadId, pc: Pc): State
    requires At(s, t)
  {
    s.(threads := s.threads[t := s.threads[t].(pc := pc)])
  }

  function SetSlot(s: State, t: ThreadId, slot: Slot): State
    requires At(s, t)
  {
    s.(threads := s.threads[t := s.threads[t].(slot := slot)])
  }

  /** The CompareAndSwap that caches sv in the slot again. */
  function PutBack(s: State, t: ThreadId, sv: SvId): State
    requires At(s, t)
  {
    s.(threads := s.threads[t := s.threads[t].(slot := Cached(sv), pc := Idle)])
  }

  function Do(s: State, step: Step): State
    requires Enabled(s, step)
  {
    match step
    case Spawn(t) => s.(threads := s.threads[t := Thread(Obsolete, Idle, 0)])
    case Exit(t) =>
      var slot := s.threads[t].slot;
      var s' := s.(threads := s.threads - {t});
      if slot.Cached? then AddRefs(s', slot.sv, -1) else s'
    case Swap(t) =>
      var slot := s.threads[t].slot;
      s.(threads := s.threads[t := Thread(InUse, Swapped(if slot.Cached? then Some(slot.sv) else None), s.number)])
    case Check(t) =>
      var ptr := s.threads[t].pc.ptr;
      if ptr.None? || ptr.value >= |s.svs| || s.svs[ptr.value].version != s.number then SetPc(s, t, Outdated(ptr))
      else SetPc(s, t, Using(ptr.value))
    case UnrefOutdated(t) =>
      var ptr := s.threads[t].pc.ptr;
      if ptr.None? then SetPc(s, t, MustLock)
      else if WasLast(s, ptr.value) then AddRefs(SetPc(s, t, MustClean(ptr.value)), ptr.value, -1)
      else AddRefs(SetPc(s, t, MustLock), ptr.value, -1)
    case Lock(t) =>
      var pc := s.threads[t].pc;
      SetPc(s, t, if pc.MustLock? then Locked else if pc.MustClean? then CleaningLocked(pc.sv) else CleaningOnly(pc.sv)).(mutex := Reader(t))
    case Clean(t) =>
      var pc := s.threads[t].pc;
      AddCleanup(SetPc(s, t, if pc.CleaningLocked? then Locked else UnlockOnly), pc.sv)
    case RefCurrent(t) => AddRefs(SetPc(s, t, LockedRef(s.current)), s.current, 1)
    case Unlock(t) =>
      var pc := s.threads[t].pc;
      SetPc(s, t, if pc.LockedRef? then Using(pc.sv) else Idle).(mutex := Free)
    case Return(t) =>
      var sv := s.threads[t].pc.sv;
      if s.threads[t].slot == InUse then PutBack(s, t, sv) else SetPc(s, t, Releasing(sv))
    case TakeRef(t) =>
      var sv := s.threads[t].pc.sv;
      AddRefs(SetPc(s, t, Referenced(sv)), sv, 1)
    case ReturnRef(t, n) =>
      var sv := s.threads[t].pc.sv;
      if s.threads[t].slot == InUse then PutBack(s, t, sv).(external := s.external[n := sv])
      else SetPc(s, t, ReferencedLost(sv))
    case DropLost(t, n) =>
      var sv := s.threads[t].pc.sv;
      AddRefs(SetPc(s, t, Idle), sv, -1).(external := s.external[n := sv])
    case PickExternal(t, n) => SetPc(s, t, Releasing(s.external[n])).(external := s.external - {n})
    case UnrefReleasing(t) =>
      var sv := s.threads[t].pc.sv;
      AddRefs(SetPc(s, t, if WasLast(s, sv) then MustCleanOnly(sv) else Idle), sv, -1)
    case BeginInstall => s.(mutex := Entered)
    case Publish =>
      s.(svs := s.svs + [Sv(s.number + 1, 1, 0)], previous := Some(s.current), current := |s.svs|,
         number := s.number + 1, mutex := Scraping(s.threads.Keys))
    case ScrapeOne(t) =>
      var slot := s.threads[t].slot;
      SetSlot(s, t, Obsolete).(mutex := Scraping(s.mutex.todo - {t}),
                               scraped := if slot.Cached? then s.scraped[t := slot.sv] else s.scraped)
    case EndScrape => s.(mutex := Unreffing)
    case UnrefScraped(t) => AddRefs(s, s.scraped[t], -1).(scraped := s.scraped - {t})
    case DropOld =>
      AddRefs(s, s.previous.value, -1).(previous := None, mutex := if WasLast(s, s.previous.value) then CleaningOld(s.previous.value) else Finished)
    case CleanOld => AddCleanup(s, s.mutex.sv).(mutex := Finished)
    case EndInstall => s.(mutex := Free)
  }

  /** The assertions that the source makes at a step. */
  predicate SourceAssertions(s: State, step: Step)
    requires Enabled(s, step)
  {
    match step
    case Exit(t) => var slot := s.threads[t].slot; slot != InUse && (slot.Cached? ==> Refs(s, slot.sv) > 1)
    case Swap(t) => s.threads[t].slot != InUse
    case UnrefOutdated(t) => var ptr := s.threads[t].pc.ptr; ptr.Some? ==> Refs(s, ptr.value) > 0
    case Clean(t) => Refs(s, s.threads[t].pc.sv) == 0
    case Return(t) => s.threads[t].slot == InUse || s.threads[t].slot == Obsolete
    case ReturnRef(t, n) => s.threads[t].slot == InUse || s.threads[t].slot == Obsolete
    case DropLost(t, n) => Refs(s, s.threads[t].pc.sv) > 1
    case UnrefReleasing(t) => Refs(s, s.threads[t].pc.sv) > 0
    case UnrefScraped(t) => Refs(s, s.scraped[t]) > 1
    case DropOld => Refs(s, s.previous.value) > 0
    case CleanOld => Refs(s, s.mutex.sv) == 0
    case _ => true
  }

  // ---- who holds a reference -----------------------------------------------

  datatype Token =
    | CurrentPointer
    | PreviousPointer
    | InSlot(t: ThreadId)
    | InHand(t: ThreadId)
    | Second(t: ThreadId)
    | InScrape(t: ThreadId)
    | Outside(n: nat)

  function HandOf(pc: Pc): Option<SvId> {
    match pc
    case Swapped(ptr) => ptr
    case Outdated(ptr) => ptr
    case LockedRef(sv) => Some(sv)
    case Using(sv) => Some(sv)
    case Referenced(sv) => Some(sv)
    case ReferencedLost(sv) => Some(sv)
    case Releasing(sv) => Some(sv)
    case _ => None
  }

  /** The SuperVersion that a holder keeps a reference to. */
  function Holds(s: State, k: Token): Option<SvId> {
    match k
    case CurrentPointer => Some(s.current)
    case PreviousPointer => s.previous
    case InSlot(t) => if t in s.threads && s.threads[t].slot.Cached? then Some(s.threads[t].slot.sv) else None
    case InHand(t) => if t in s.threads then HandOf(s.threads[t].pc) else None
    case Second(t) =>
      if t in s.threads && (s.threads[t].pc.Referenced? || s.threads[t].pc.ReferencedLost?) then Some(s.threads[t].pc.sv) else None
    case InScrape(t) => if t in s.scraped then Some(s.scraped[t]) else None
    case Outside(n) => if n in s.external then Some(s.external[n]) else None
  }

  function Tokens(s: State): set<Token> {
    {CurrentPointer, PreviousPointer}
    + (set t | t in s.threads :: InSlot(t)) + (set t | t in s.threads :: InHand(t)) + (set t | t in s.threads :: Second(t))
    + (set t | t in s.scraped :: InScrape(t)) + (set n | n in s.external :: Outside(n))
  }

  function Holders(s: State, sv: SvId): set<Token> {
    set k | k in Tokens(s) && Holds(s, k) == Some(sv)
  }

  lemma HoldersAre(s: State, sv: SvId, k: Token)
    ensures k in Holders(s, sv) <==> Holds(s, k) == Some(sv)
  {
  }
}
