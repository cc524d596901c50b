/** Every interleaving keeps the reference counts of SuperVersions exact. */
module SuperVersionProof {
  import opened SuperVersion

  // ---- the invariant -------------------------------------------------------

  predicate HasLock(pc: Pc) {
    pc.CleaningLocked? || pc.Locked? || pc.LockedRef? || pc.CleaningOnly? || pc.UnlockOnly?
  }

  /** The thread is between its Swap and the matching CompareAndSwap. */
  predicate InCall(pc: Pc) {
    !(pc.Idle? || pc.ReferencedLost? || pc.Releasing? || pc.MustCleanOnly? || pc.CleaningOnly? || pc.UnlockOnly?)
  }

  predicate Installing(m: Mutex) {
    m.Scraping? || m.Unreffing?
  }

  ghost predicate Shape(s: State) {
    && 0 < |s.svs| == s.number == s.current + 1
    && (forall i :: 0 <= i < |s.svs| ==> s.svs[i].version == i + 1)
    && (forall k :: Holds(s, k).Some? ==> Holds(s, k).value < |s.svs|)
    && (s.previous.Some? <==> Installing(s.mutex))
    && (forall t :: t in s.scraped ==> s.previous == Some(s.scraped[t]))
    && (s.mutex.Scraping? ==> s.mutex.todo <= s.threads.Keys && s.mutex.todo !! s.scraped.Keys)
    && (s.mutex.Reader? ==> s.mutex.t in s.threads)
    && (forall t :: t in s.threads ==> (HasLock(s.threads[t].pc) <==> s.mutex == Reader(t)))
  }

  /** Every reference count is the number of holders. */
  ghost predicate Counted(s: State) {
    forall sv :: 0 <= sv < |s.svs| ==> s.svs[sv].refs == |Holders(s, sv)|
  }

  /** A slot says kSVInUse only during a call, and caches only outside one. */
  predicate SlotFits(th: Thread) {
    if InCall(th.pc) then !th.slot.Cached? else th.slot != InUse
  }

  /** The SuperVersion that is in the slot, or that may be put back there. */
  function Exposed(th: Thread): Option<SvId> {
    if th.slot.Cached? then Some(th.slot.sv)
    else if th.slot == InUse then HandOf(th.pc)
    else None
  }

  /** An exposed SuperVersion is the current one, or the scrape is on its way. */
  predicate Caught(s: State, t: ThreadId, sv: SvId) {
    match s.mutex
    case Free => sv == s.current
    case Reader(_) => sv == s.current
    case Entered => sv == s.current
    case Scraping(todo) => t in todo && s.previous == Some(sv)
    case _ => false
  }

  ghost predicate Slots(s: State) {
    forall t :: t in s.threads ==>
      && SlotFits(s.threads[t])
      && (Exposed(s.threads[t]).Some? ==> Caught(s, t, Exposed(s.threads[t]).value))
  }

  /** What a call returns is at least as new as what was current at its start. */
  predicate FreshEnough(s: State, th: Thread) {
    && th.start <= s.number
    && (th.pc.LockedRef? || th.pc.Using? || th.pc.Referenced? ==> th.start <= th.pc.sv + 1)
  }

  ghost predicate Fresh(s: State) {
    forall t :: t in s.threads ==> FreshEnough(s, s.threads[t])
  }

  datatype Cleaner = ByThread(t: ThreadId) | ByInstaller

  /** The SuperVersion that somebody is bound to clean up. */
  function Cleaning(s: State, c: Cleaner): Option<SvId> {
    match c
    case ByInstaller => if s.mutex.CleaningOld? then Some(s.mutex.sv) else None
    case ByThread(t) =>
      if t !in s.threads then None
      else match s.threads[t].pc
        case MustClean(sv) => Some(sv)
        case CleaningLocked(sv) => Some(sv)
        case MustCleanOnly(sv) => Some(sv)
        case CleaningOnly(sv) => Some(sv)
        case _ => None
  }

  /** A SuperVersion without references has been cleaned up once, or exactly one
      thread is about to do so; one with references has not been cleaned up. */
  ghost predicate Cleaned(s: State) {
    && (forall sv :: 0 <= sv < |s.svs| ==>
          && (s.svs[sv].refs > 0 ==> s.svs[sv].cleanups == 0)
          && s.svs[sv].cleanups <= 1
          && (s.svs[sv].refs == 0 && s.svs[sv].cleanups == 0 ==> exists c :: Cleaning(s, c) == Some(sv)))
    && (forall c :: Cleaning(s, c).Some? ==>
          var sv := Cleaning(s, c).value;
          sv < |s.svs| && s.svs[sv].refs == 0 && s.svs[sv].cleanups == 0)
    && (forall c, d :: Cleaning(s, c).Some? && Cleaning(s, c) == Cleaning(s, d) ==> c == d)
  }

  ghost predicate Inv(s: State) {
    Shape(s) && Counted(s) && Slots(s) && Fresh(s) && Cleaned(s)
  }

  // ---- counting ------------------------------------------------------------

  /** What a transfer means for one token. */
  predicate TokenMoves(s: State, s': State, sv: SvId, from: set<Token>, to: set<Token>, k: Token) {
    && (k in from ==> Holds(s, k) == Some(sv) && k !in to)
    && (k in to ==> Holds(s, k) == None)
    && Holds(s', k) == if k in to then Some(sv) else if k in from then None else Holds(s, k)
  }

  /** The tokens in `from` give up their reference to sv, those in `to` gain
      one, and nobody else's reference changes. */
  ghost predicate Transfers(s: State, s': State, sv: SvId, from: set<Token>, to: set<Token>) {
    forall k :: TokenMoves(s, s', sv, from, to, k)
  }

  lemma TransferCounts(s: State, s': State, sv: SvId, from: set<Token>, to: set<Token>)
    requires Transfers(s, s', sv, from, to)
    ensures |Holders(s', sv)| == |Holders(s, sv)| - |from| + |to|
    ensures forall x: SvId :: x != sv ==> Holders(s', x) == Holders(s, x)
  {
    hide Holds, Tokens;
    var h, h' := Holders(s, sv), Holders(s', sv);
    forall k
      ensures k in h' <==> k in h - from + to
      ensures k in from ==> k in h
      ensures k in to ==> k !in h
    {
      HoldersAre(s, sv, k);
      HoldersAre(s', sv, k);
      assert TokenMoves(s, s', sv, from, to, k);
    }
    assert h' == h - from + to;
    assert from <= h && to !! h;
    forall x: SvId | x != sv ensures Holders(s', x) == Holders(s, x) {
      forall k ensures k in Holders(s', x) <==> k in Holders(s, x) {
        HoldersAre(s, x, k);
        HoldersAre(s', x, k);
        assert TokenMoves(s, s', sv, from, to, k);
      }
    }
  }

  /** The count follows a transfer. */
  lemma CountedAfter(s: State, s': State, sv: SvId, from: set<Token>, to: set<Token>)
    requires Counted(s) && Transfers(s, s', sv, from, to) && sv < |s.svs| == |s'.svs|
    requires forall x :: 0 <= x < |s.svs| ==> s'.svs[x].refs == s.svs[x].refs + if x == sv then |to| - |from| else 0
    ensures Counted(s')
  {
    TransferCounts(s, s', sv, from, to);
  }

  /** Two holders make a count of at least two. */
  lemma TwoHolders(s: State, sv: SvId, a: Token, b: Token)
    requires Counted(s) && sv < |s.svs|
    requires a != b && Holds(s, a) == Some(sv) && Holds(s, b) == Some(sv)
    ensures s.svs[sv].refs >= 2
  {
    hide Holders;
    HoldersAre(s, sv, a);
    HoldersAre(s, sv, b);
    TwoElements(Holders(s, sv), a, b);
  }

  lemma TwoElements(h: set<Token>, a: Token, b: Token)
    requires a != b && a in h && b in h
    ensures |h| >= 2
  {
    assert |h| == |h - {a, b}| + |{a, b}|;
  }

  lemma OneHolder(s: State, sv: SvId, a: Token)
    requires Counted(s) && sv < |s.svs| && Holds(s, a) == Some(sv)
    ensures s.svs[sv].refs >= 1
  {
    HoldersAre(s, sv, a);
    assert Holders(s, sv) != {};
  }

  // ---- the parts of a step -------------------------------------------------

  /** Only thread t, reference counts, cleanups and outside reference n differ. */
  ghost predicate OnlyThread(s: State, s': State, t: ThreadId, n: nat) {
    && |s'.svs| == |s.svs|
    && (forall i :: 0 <= i < |s.svs| ==> s'.svs[i].version == s.svs[i].version)
    && s' == s.(svs := s'.svs, threads := s'.threads, external := s'.external)
    && t in s.threads && t in s'.threads
    && s'.threads == s.threads[t := s'.threads[t]]
    && s'.external - {n} == s.external - {n}
  }

  /** What the invariant says about one thread. */
  ghost predicate ThreadOk(s: State, t: ThreadId, th: Thread) {
    && SlotFits(th)
    && (Exposed(th).Some? ==> Caught(s, t, Exposed(th).value))
    && FreshEnough(s, th)
    && (HasLock(th.pc) <==> s.mutex == Reader(t))
  }

  lemma ThreadIsOk(s: State, t: ThreadId)
    requires Inv(s) && t in s.threads
    ensures ThreadOk(s, t, s.threads[t])
    ensures s.threads[t].slot.Cached? ==> s.threads[t].slot.sv < |s.svs|
    ensures HandOf(s.threads[t].pc).Some? ==> HandOf(s.threads[t].pc).value < |s.svs|
    ensures |s.svs| == s.number == s.current + 1
    ensures forall i :: 0 <= i < |s.svs| ==> s.svs[i].version == i + 1
  {
    assert Holds(s, InSlot(t)).Some? ==> Holds(s, InSlot(t)).value < |s.svs|;
    assert Holds(s, InHand(t)).Some? ==> Holds(s, InHand(t)).value < |s.svs|;
  }

  /** A thread moves references among its own places and one outside. */
  ghost predicate ThreadMoves(s: State, s': State, t: ThreadId, n: nat, sv: SvId, from: set<Token>, to: set<Token>) {
    && sv < |s.svs| == |s'.svs|
    && from <= {InSlot(t), InHand(t), Second(t), Outside(n)} && to <= {InSlot(t), InHand(t), Second(t), Outside(n)}
    && TokenMoves(s, s', sv, from, to, InSlot(t)) && TokenMoves(s, s', sv, from, to, InHand(t))
    && TokenMoves(s, s', sv, from, to, Second(t)) && TokenMoves(s, s', sv, from, to, Outside(n))
    && (forall x :: 0 <= x < |s.svs| ==> s'.svs[x].refs == s.svs[x].refs + if x == sv then |to| - |from| else 0)
  }

  lemma ThreadMovesTransfers(s: State, s': State, t: ThreadId, n: nat, sv: SvId, from: set<Token>, to: set<Token>)
    requires OnlyThread(s, s', t, n) && ThreadMoves(s, s', t, n, sv, from, to)
    ensures Transfers(s, s', sv, from, to)
  {
    forall k ensures TokenMoves(s, s', sv, from, to, k) {
      if k.Outside? && k.n != n {
        var m, m' := s.external - {n}, s'.external - {n};
        assert k.n in s.external <==> k.n in m;
        assert k.n in s'.external <==> k.n in m';
        assert k.n in m ==> m[k.n] == m'[k.n];
      }
    }
  }

  lemma ThreadStepKeeps(s: State, s': State, t: ThreadId, n: nat, sv: SvId, from: set<Token>, to: set<Token>)
    requires Inv(s) && OnlyThread(s, s', t, n) && ThreadMoves(s, s', t, n, sv, from, to)
    requires ThreadOk(s, t, s'.threads[t])
    requires Cleaned(s')
    ensures Inv(s')
  {
    hide Cleaned, Holders, Holds, Transfers, SlotFits, Exposed, HasLock, Caught, FreshEnough;
    ThreadMovesTransfers(s, s', t, n, sv, from, to);
    CountedAfter(s, s', sv, from, to);
    InRangeAfter(s, s', sv, from, to);
    forall u | u in s'.threads ensures ThreadOk(s', u, s'.threads[u]) {
      if u != t { ThreadIsOk(s, u); }
      SameForThread(s, s', u, s'.threads[u]);
    }
  }

  lemma SameForThread(s: State, s': State, u: ThreadId, th: Thread)
    requires s'.mutex == s.mutex && s'.current == s.current && s'.previous == s.previous && s'.number == s.number
    ensures ThreadOk(s, u, th) == ThreadOk(s', u, th)
  {
  }

  lemma InRangeAfter(s: State, s': State, sv: SvId, from: set<Token>, to: set<Token>)
    requires Shape(s) && Transfers(s, s', sv, from, to) && sv < |s.svs| <= |s'.svs|
    ensures forall k :: Holds(s', k).Some? ==> Holds(s', k).value < |s'.svs|
  {
    hide Holds;
    forall k | Holds(s', k).Some? ensures Holds(s', k).value < |s'.svs| {
      assert TokenMoves(s, s', sv, from, to, k);
    }
  }

  /** Nobody's duty to clean up changes, and no count drops to zero. */
  lemma CleanedSame(s: State, s': State)
    requires Cleaned(s) && |s'.svs| == |s.svs|
    requires forall c :: Cleaning(s', c) == Cleaning(s, c)
    requires forall x :: 0 <= x < |s.svs| ==>
               && s'.svs[x].cleanups == s.svs[x].cleanups
               && (s'.svs[x].refs == s.svs[x].refs || (s'.svs[x].refs > 0 && s.svs[x].refs > 0))
    ensures Cleaned(s')
  {
    hide Cleaning;
    forall x | 0 <= x < |s.svs| && s.svs[x].refs == 0 && s.svs[x].cleanups == 0
      ensures exists c :: Cleaning(s', c) == Some(x)
    {
      var c :| Cleaning(s, c) == Some(x);
      assert Cleaning(s', c) == Some(x);
    }
  }

  /** c has dropped the last reference to sv and is bound to clean up. */
  lemma CleanedSoon(s: State, s': State, sv: SvId, c: Cleaner)
    requires Cleaned(s) && |s'.svs| == |s.svs| && sv < |s.svs|
    requires s.svs[sv].refs > 0 && Cleaning(s, c).None? && Cleaning(s', c) == Some(sv)
    requires forall d :: d != c ==> Cleaning(s', d) == Cleaning(s, d)
    requires forall x :: 0 <= x < |s.svs| ==> s'.svs[x] == s.svs[x].(refs := if x == sv then 0 else s.svs[x].refs)
    ensures Cleaned(s')
  {
    hide Cleaning;
    forall x | 0 <= x < |s.svs| && s'.svs[x].refs == 0 && s'.svs[x].cleanups == 0
      ensures exists d :: Cleaning(s', d) == Some(x)
    {
      if x != sv {
        var d :| Cleaning(s, d) == Some(x);
        assert Cleaning(s', d) == Some(x);
      }
    }
  }

  /** c has cleaned up sv. */
  lemma CleanedNow(s: State, s': State, sv: SvId, c: Cleaner)
    requires Cleaned(s) && |s'.svs| == |s.svs| && sv < |s.svs|
    requires Cleaning(s, c) == Some(sv) && Cleaning(s', c).None?
    requires forall d :: d != c ==> Cleaning(s', d) == Cleaning(s, d)
    requires forall x :: 0 <= x < |s.svs| ==> s'.svs[x] == s.svs[x].(cleanups := if x == sv then 1 else s.svs[x].cleanups)
    ensures Cleaned(s')
  {
    hide Cleaning;
    forall x | 0 <= x < |s.svs| && s'.svs[x].refs == 0 && s'.svs[x].cleanups == 0
      ensures exists d :: Cleaning(s', d) == Some(x)
    {
      var d :| Cleaning(s, d) == Some(x);
      assert Cleaning(s', d) == Some(x);
    }
  }

  lemma CleaningIsDue(s: State, c: Cleaner)
    requires Cleaned(s) && Cleaning(s, c).Some?
    ensures var sv := Cleaning(s, c).value;
            sv < |s.svs| && s.svs[sv].refs == 0 && s.svs[sv].cleanups == 0
  {
  }

  lemma HeldInRange(s: State, k: Token)
    requires Shape(s) && Holds(s, k).Some?
    ensures Holds(s, k).value < |s.svs|
  {
  }

  // ---- each step -----------------------------------------------------------

  lemma SwapKeeps(s: State, t: ThreadId)
    requires Inv(s) && Enabled(s, Swap(t))
    ensures Inv(Do(s, Swap(t)))
  {
    hide Counted, Slots, Fresh, Cleaned, Holders, Shape;
    var s' := Do(s, Swap(t));
    ThreadIsOk(s, t);
    var slot := s.threads[t].slot;
    CleanedSame(s, s');
    if slot.Cached? {
      ThreadStepKeeps(s, s', t, 0, slot.sv, {InSlot(t)}, {InHand(t)});
    } else {
      ThreadStepKeeps(s, s', t, 0, s.current, {}, {});
    }
  }

  lemma CheckIs(s: State, t: ThreadId)
    requires Enabled(s, Check(t))
    ensures At(s, t) && s.threads[t].pc.Swapped?
    ensures Do(s, Check(t)) ==
            (var ptr := s.threads[t].pc.ptr;
             if ptr.None? || ptr.value >= |s.svs| || s.svs[ptr.value].version != s.number then SetPc(s, t, Outdated(ptr))
             else SetPc(s, t, Using(ptr.value)))
  {
  }

  lemma CheckKeeps(s: State, t: ThreadId)
    requires Inv(s) && Enabled(s, Check(t))
    ensures Inv(Do(s, Check(t)))
  {
    hide Counted, Slots, Fresh, Cleaned, Holders, Shape, Do, Enabled;
    CheckIs(s, t);
    var s' := Do(s, Check(t));
    ThreadIsOk(s, t);
    CleanedSame(s, s');
    ThreadStepKeeps(s, s', t, 0, s.current, {}, {});
  }

  lemma UnrefOutdatedIs(s: State, t: ThreadId)
    requires Enabled(s, UnrefOutdated(t))
    ensures At(s, t) && s.threads[t].pc.Outdated?
    ensures Do(s, UnrefOutdated(t)) ==
            (var ptr := s.threads[t].pc.ptr;
             if ptr.None? then SetPc(s, t, MustLock)
             else if WasLast(s, ptr.value) then AddRefs(SetPc(s, t, MustClean(ptr.value)), ptr.value, -1)
             else AddRefs(SetPc(s, t, MustLock), ptr.value, -1))
  {
  }

  lemma UnrefNothingKeeps(s: State, t: ThreadId)
    requires Inv(s) && t in s.threads && s.threads[t].pc == Outdated(None)
    ensures Inv(SetPc(s, t, MustLock))
  {
    hide Counted, Slots, Fresh, Cleaned, Holders, Shape, Do, Enabled;
    var s' := SetPc(s, t, MustLock);
    ThreadIsOk(s, t);
    CleanedSame(s, s');
    ThreadStepKeeps(s, s', t, 0, s.current, {}, {});
  }

  lemma UnrefLastKeeps(s: State, t: ThreadId, sv: SvId)
    requires Inv(s) && t in s.threads && s.threads[t].pc == Outdated(Some(sv)) && WasLast(s, sv)
    ensures Inv(AddRefs(SetPc(s, t, MustClean(sv)), sv, -1))
  {
    hide Counted, Slots, Fresh, Cleaned, Holders, Shape, Do, Enabled;
    var s' := AddRefs(SetPc(s, t, MustClean(sv)), sv, -1);
    ThreadIsOk(s, t);
    OneHolder(s, sv, InHand(t));
    CleanedSoon(s, s', sv, ByThread(t));
    ThreadStepKeeps(s, s', t, 0, sv, {InHand(t)}, {});
  }

  lemma UnrefSomeKeeps(s: State, t: ThreadId, sv: SvId)
    requires Inv(s) && t in s.threads && s.threads[t].pc == Outdated(Some(sv)) && !WasLast(s, sv)
    ensures Inv(AddRefs(SetPc(s, t, MustLock), sv, -1))
  {
    hide Counted, Slots, Fresh, Cleaned, Holders, Shape, Do, Enabled;
    var s' := AddRefs(SetPc(s, t, MustLock), sv, -1);
    ThreadIsOk(s, t);
    OneHolder(s, sv, InHand(t));
    CleanedSame(s, s');
    ThreadStepKeeps(s, s', t, 0, sv, {InHand(t)}, {});
  }

  lemma UnrefOutdatedKeeps(s: State, t: ThreadId)
    requires Inv(s) && Enabled(s, UnrefOutdated(t))
    ensures Inv(Do(s, UnrefOutdated(t)))
  {
    hide Inv, Do, Enabled;
    UnrefOutdatedIs(s, t);
    var ptr := s.threads[t].pc.ptr;
    if ptr.None? {
      UnrefNothingKeeps(s, t);
    } else if WasLast(s, ptr.value) {
      UnrefLastKeeps(s, t, ptr.value);
    } else {
      UnrefSomeKeeps(s, t, ptr.value);
    }
  }

  lemma CleanKeeps(s: State, t: ThreadId)
    requires Inv(s) && Enabled(s, Clean(t))
    ensures Inv(Do(s, Clean(t)))
  {
    hide Counted, Slots, Fresh, Cleaned, Holders, Shape;
    var s' := Do(s, Clean(t));
    ThreadIsOk(s, t);
    CleaningIsDue(s, ByThread(t));
    CleanedNow(s, s', s.threads[t].pc.sv, ByThread(t));
    ThreadStepKeeps(s, s', t, 0, s.current, {}, {});
  }

  lemma RefCurrentKeeps(s: State, t: ThreadId)
    requires Inv(s) && Enabled(s, RefCurrent(t))
    ensures Inv(Do(s, RefCurrent(t)))
  {
    hide Counted, Slots, Fresh, Cleaned, Holders, Shape;
    var s' := Do(s, RefCurrent(t));
    ThreadIsOk(s, t);
    OneHolder(s, s.current, CurrentPointer);
    CleanedSame(s, s');
    ThreadStepKeeps(s, s', t, 0, s.current, {}, {InHand(t)});
  }

  lemma ReturnKeeps(s: State, t: ThreadId)
    requires Inv(s) && Enabled(s, Return(t))
    ensures Inv(Do(s, Return(t)))
  {
    hide Counted, Slots, Fresh, Cleaned, Holders, Shape;
    var s' := Do(s, Return(t));
    ThreadIsOk(s, t);
    CleanedSame(s, s');
    if s.threads[t].slot == InUse {
      ThreadStepKeeps(s, s', t, 0, s.threads[t].pc.sv, {InHand(t)}, {InSlot(t)});
    } else {
      ThreadStepKeeps(s, s', t, 0, s.current, {}, {});
    }
  }

  lemma TakeRefKeeps(s: State, t: ThreadId)
    requires Inv(s) && Enabled(s, TakeRef(t))
    ensures Inv(Do(s, TakeRef(t)))
  {
    hide Counted, Slots, Fresh, Cleaned, Holders, Shape;
    var s' := Do(s, TakeRef(t));
    ThreadIsOk(s, t);
    OneHolder(s, s.threads[t].pc.sv, InHand(t));
    CleanedSame(s, s');
    ThreadStepKeeps(s, s', t, 0, s.threads[t].pc.sv, {}, {Second(t)});
  }

  lemma ReturnRefIs(s: State, t: ThreadId, n: nat)
    requires Enabled(s, ReturnRef(t, n))
    ensures At(s, t) && s.threads[t].pc.Referenced? && n !in s.external
    ensures Do(s, ReturnRef(t, n)) ==
            (var sv := s.threads[t].pc.sv;
             if s.threads[t].slot == InUse then PutBack(s, t, sv).(external := s.external[n := sv])
             else SetPc(s, t, ReferencedLost(sv)))
  {
  }

  lemma PutBackKeeps(s: State, t: ThreadId, n: nat, sv: SvId)
    requires Inv(s) && t in s.threads && s.threads[t].pc == Referenced(sv) && s.threads[t].slot == InUse && n !in s.external
    ensures Inv(PutBack(s, t, sv).(external := s.external[n := sv]))
  {
    hide Counted, Slots, Fresh, Cleaned, Holders, Shape, Do, Enabled;
    var s' := PutBack(s, t, sv).(external := s.external[n := sv]);
    ThreadIsOk(s, t);
    CleanedSame(s, s');
    ThreadStepKeeps(s, s', t, n, sv, {InHand(t), Second(t)}, {InSlot(t), Outside(n)});
  }

  lemma LostKeeps(s: State, t: ThreadId, sv: SvId)
    requires Inv(s) && t in s.threads && s.threads[t].pc == Referenced(sv) && s.threads[t].slot != InUse
    ensures Inv(SetPc(s, t, ReferencedLost(sv)))
  {
    hide Counted, Slots, Fresh, Cleaned, Holders, Shape, Do, Enabled;
    var s' := SetPc(s, t, ReferencedLost(sv));
    ThreadIsOk(s, t);
    CleanedSame(s, s');
    ThreadStepKeeps(s, s', t, 0, s.current, {}, {});
  }

  lemma ReturnRefKeeps(s: State, t: ThreadId, n: nat)
    requires Inv(s) && Enabled(s, ReturnRef(t, n))
    ensures Inv(Do(s, ReturnRef(t, n)))
  {
    hide Inv, Do, Enabled;
    ReturnRefIs(s, t, n);
    if s.threads[t].slot == InUse {
      PutBackKeeps(s, t, n, s.threads[t].pc.sv);
    } else {
      LostKeeps(s, t, s.threads[t].pc.sv);
    }
  }

  lemma DropLostIs(s: State, t: ThreadId, n: nat)
    requires Enabled(s, DropLost(t, n))
    ensures At(s, t) && s.threads[t].pc.ReferencedLost? && n !in s.external
    ensures Do(s, DropLost(t, n)) ==
            (var sv := s.threads[t].pc.sv;
             AddRefs(SetPc(s, t, Idle), sv, -1).(external := s.external[n := sv]))
  {
  }

  lemma DropLostKeeps(s: State, t: ThreadId, n: nat)
    requires Inv(s) && Enabled(s, DropLost(t, n))
    ensures Inv(Do(s, DropLost(t, n)))
  {
    hide Counted, Slots, Fresh, Cleaned, Holders, Shape, Do, Enabled;
    DropLostIs(s, t, n);
    var s' := Do(s, DropLost(t, n));
    ThreadIsOk(s, t);
    TwoHolders(s, s.threads[t].pc.sv, InHand(t), Second(t));
    CleanedSame(s, s');
    ThreadStepKeeps(s, s', t, n, s.threads[t].pc.sv, {InHand(t), Second(t)}, {Outside(n)});
  }

  lemma PickExternalKeeps(s: State, t: ThreadId, n: nat)
    requires Inv(s) && Enabled(s, PickExternal(t, n))
    ensures Inv(Do(s, PickExternal(t, n)))
  {
    hide Counted, Slots, Fresh, Cleaned, Holders, Shape;
    var s' := Do(s, PickExternal(t, n));
    ThreadIsOk(s, t);
    HeldInRange(s, Outside(n));
    CleanedSame(s, s');
    ThreadStepKeeps(s, s', t, n, s.external[n], {Outside(n)}, {InHand(t)});
  }

  lemma UnrefReleasingKeeps(s: State, t: ThreadId)
    requires Inv(s) && Enabled(s, UnrefReleasing(t))
    ensures Inv(Do(s, UnrefReleasing(t)))
  {
    hide Counted, Slots, Fresh, Cleaned, Holders, Shape;
    var s' := Do(s, UnrefReleasing(t));
    ThreadIsOk(s, t);
    var sv := s.threads[t].pc.sv;
    OneHolder(s, sv, InHand(t));
    if WasLast(s, sv) {
      CleanedSoon(s, s', sv, ByThread(t));
    } else {
      CleanedSame(s, s');
    }
    ThreadStepKeeps(s, s', t, 0, sv, {InHand(t)}, {});
  }

  /** Steps that lock or unlock the DB mutex for a reader. */
  lemma MutexStepKeeps(s: State, s': State, t: ThreadId)
    requires Inv(s) && t in s.threads && t in s'.threads
    requires s' == s.(threads := s.threads[t := s'.threads[t]], mutex := s'.mutex)
    requires (s.mutex == Free && s'.mutex == Reader(t)) || (s.mutex == Reader(t) && s'.mutex == Free)
    requires ThreadOk(s', t, s'.threads[t])
    requires forall k :: k in {InSlot(t), InHand(t), Second(t)} ==> Holds(s', k) == Holds(s, k)
    requires Cleaned(s')
    ensures Inv(s')
  {
    hide Cleaned, Holders, HasLock, SlotFits, Exposed;
    assert Transfers(s, s', s.current, {}, {}) by {
      forall k ensures Holds(s', k) == Holds(s, k) {
        assert k in {InSlot(t), InHand(t), Second(t)} || Holds(s', k) == Holds(s, k);
      }
    }
    CountedAfter(s, s', s.current, {}, {});
    InRangeAfter(s, s', s.current, {}, {});
    forall u | u in s'.threads ensures ThreadOk(s', u, s'.threads[u]) {
      if u != t { ThreadIsOk(s, u); }
    }
  }

  lemma LockKeeps(s: State, t: ThreadId)
    requires Inv(s) && Enabled(s, Lock(t))
    ensures Inv(Do(s, Lock(t)))
  {
    hide Counted, Slots, Fresh, Cleaned, Holders, Shape;
    var s' := Do(s, Lock(t));
    ThreadIsOk(s, t);
    CleanedSame(s, s');
    MutexStepKeeps(s, s', t);
  }

  lemma UnlockKeeps(s: State, t: ThreadId)
    requires Inv(s) && Enabled(s, Unlock(t))
    ensures Inv(Do(s, Unlock(t)))
  {
    hide Counted, Slots, Fresh, Cleaned, Holders, Shape;
    var s' := Do(s, Unlock(t));
    ThreadIsOk(s, t);
    CleanedSame(s, s');
    MutexStepKeeps(s, s', t);
  }

  lemma SpawnKeeps(s: State, t: ThreadId)
    requires Inv(s) && Enabled(s, Spawn(t))
    ensures Inv(Do(s, Spawn(t)))
  {
    hide Cleaned, Holders;
    var s' := Do(s, Spawn(t));
    CleanedSame(s, s');
    assert Transfers(s, s', s.current, {}, {});
    CountedAfter(s, s', s.current, {}, {});
    InRangeAfter(s, s', s.current, {}, {});
  }

  /** The slot of an exiting thread never holds the last reference. */
  lemma ExitIsNotLast(s: State, t: ThreadId)
    requires Inv(s) && Enabled(s, Exit(t))
    ensures var slot := s.threads[t].slot;
            slot.Cached? ==> slot.sv == s.current && s.svs[s.current].refs >= 2
  {
    hide Cleaned, Holders, Fresh, Counted;
    if s.threads[t].slot.Cached? {
      ThreadIsOk(s, t);
      TwoHolders(s, s.current, CurrentPointer, InSlot(t));
    }
  }

  lemma ExitIs(s: State, t: ThreadId)
    requires Enabled(s, Exit(t))
    ensures At(s, t) && s.threads[t].pc == Idle && !s.mutex.Scraping?
    ensures Do(s, Exit(t)) ==
            (var slot := s.threads[t].slot;
             var s' := s.(threads := s.threads - {t});
             if slot.Cached? then AddRefs(s', slot.sv, -1) else s')
  {
  }

  lemma ExitTransfers(s: State, t: ThreadId)
    requires Inv(s) && Enabled(s, Exit(t))
    ensures Transfers(s, Do(s, Exit(t)), s.current, if s.threads[t].slot.Cached? then {InSlot(t)} else {}, {})
  {
    hide Cleaned, Holders, Counted, Fresh, Do, Enabled;
    ExitIs(s, t);
    ExitIsNotLast(s, t);
  }

  lemma ExitKeeps(s: State, t: ThreadId)
    requires Inv(s) && Enabled(s, Exit(t))
    ensures Inv(Do(s, Exit(t)))
  {
    hide Cleaned, Holders, Counted, Do, Enabled, Transfers;
    ExitIs(s, t);
    var s' := Do(s, Exit(t));
    var slot := s.threads[t].slot;
    var from := if slot.Cached? then {InSlot(t)} else {};
    ExitIsNotLast(s, t);
    CleanedSame(s, s');
    ExitTransfers(s, t);
    CountedAfter(s, s', s.current, from, {});
    InRangeAfter(s, s', s.current, from, {});
  }

  /** The references move as told, and the counts with them. */
  ghost predicate Accounts(s: State, s': State, sv: SvId, from: set<Token>, to: set<Token>) {
    && sv < |s.svs| == |s'.svs|
    && Transfers(s, s', sv, from, to)
    && (forall x :: 0 <= x < |s.svs| ==> s'.svs[x].refs == s.svs[x].refs + if x == sv then |to| - |from| else 0)
  }

  /** Steps of the installer that leave the threads alone. */
  lemma InstallerStepKeeps(s: State, s': State, sv: SvId, from: set<Token>, to: set<Token>)
    requires Inv(s) && Accounts(s, s', sv, from, to)
    requires s' == s.(svs := s'.svs, mutex := s'.mutex, previous := s'.previous, scraped := s'.scraped)
    requires forall i :: 0 <= i < |s.svs| ==> s'.svs[i].version == s.svs[i].version
    requires !s.mutex.Reader? && !s'.mutex.Reader? && !s'.mutex.Scraping?
    requires s'.previous.Some? <==> Installing(s'.mutex)
    requires forall t :: t in s'.scraped ==> s'.previous == Some(s'.scraped[t])
    requires forall t, x :: Caught(s, t, x) ==> Caught(s', t, x)
    requires Cleaned(s')
    ensures Inv(s')
  {
    hide Cleaned, Holders, Holds, Transfers, HasLock, SlotFits, Exposed, Caught;
    CountedAfter(s, s', sv, from, to);
    InRangeAfter(s, s', sv, from, to);
  }

  lemma BeginInstallKeeps(s: State)
    requires Inv(s) && Enabled(s, BeginInstall)
    ensures Inv(Do(s, BeginInstall))
  {
    hide Counted, Slots, Fresh, Cleaned, Holders;
    var s' := Do(s, BeginInstall);
    CleanedSame(s, s');
    InstallerStepKeeps(s, s', s.current, {}, {});
  }

  lemma EndScrapeKeeps(s: State)
    requires Inv(s) && Enabled(s, EndScrape)
    ensures Inv(Do(s, EndScrape))
  {
    hide Counted, Slots, Fresh, Cleaned, Holders;
    var s' := Do(s, EndScrape);
    CleanedSame(s, s');
    InstallerStepKeeps(s, s', s.current, {}, {});
  }

  lemma UnrefScrapedKeeps(s: State, t: ThreadId)
    requires Inv(s) && Enabled(s, UnrefScraped(t))
    ensures Inv(Do(s, UnrefScraped(t)))
  {
    hide Counted, Slots, Fresh, Cleaned, Holders;
    var s' := Do(s, UnrefScraped(t));
    HeldInRange(s, InScrape(t));
    TwoHolders(s, s.scraped[t], InScrape(t), PreviousPointer);
    CleanedSame(s, s');
    InstallerStepKeeps(s, s', s.scraped[t], {InScrape(t)}, {});
  }

  lemma DropOldKeeps(s: State)
    requires Inv(s) && Enabled(s, DropOld)
    ensures Inv(Do(s, DropOld))
  {
    hide Counted, Slots, Fresh, Cleaned, Holders;
    var s' := Do(s, DropOld);
    var sv := s.previous.value;
    HeldInRange(s, PreviousPointer);
    OneHolder(s, sv, PreviousPointer);
    if WasLast(s, sv) {
      CleanedSoon(s, s', sv, ByInstaller);
    } else {
      CleanedSame(s, s');
    }
    InstallerStepKeeps(s, s', sv, {PreviousPointer}, {});
  }

  lemma CleanOldKeeps(s: State)
    requires Inv(s) && Enabled(s, CleanOld)
    ensures Inv(Do(s, CleanOld))
  {
    hide Counted, Slots, Fresh, Cleaned, Holders;
    var s' := Do(s, CleanOld);
    CleaningIsDue(s, ByInstaller);
    CleanedNow(s, s', s.mutex.sv, ByInstaller);
    InstallerStepKeeps(s, s', s.current, {}, {});
  }

  lemma EndInstallKeeps(s: State)
    requires Inv(s) && Enabled(s, EndInstall)
    ensures Inv(Do(s, EndInstall))
  {
    hide Counted, Slots, Fresh, Cleaned, Holders;
    var s' := Do(s, EndInstall);
    CleanedSame(s, s');
    InstallerStepKeeps(s, s', s.current, {}, {});
  }

  lemma ScrapeOneTransfers(s: State, t: ThreadId)
    requires Inv(s) && Enabled(s, ScrapeOne(t))
    ensures var s' := Do(s, ScrapeOne(t));
            var slot := s.threads[t].slot;
            if slot.Cached? then Transfers(s, s', slot.sv, {InSlot(t)}, {InScrape(t)}) else Transfers(s, s', s.current, {}, {})
  {
    hide Slots, Fresh, Cleaned, Counted;
  }

  lemma ScrapeOneThreads(s: State, t: ThreadId)
    requires Inv(s) && Enabled(s, ScrapeOne(t))
    ensures Slots(Do(s, ScrapeOne(t))) && Fresh(Do(s, ScrapeOne(t)))
  {
    hide Cleaned, Counted, Shape;
  }

  lemma ScrapeOneKeeps(s: State, t: ThreadId)
    requires Inv(s) && Enabled(s, ScrapeOne(t))
    ensures Inv(Do(s, ScrapeOne(t)))
  {
    hide Cleaned, Holders, Counted, Slots, Fresh, Holds, Transfers;
    var s' := Do(s, ScrapeOne(t));
    var slot := s.threads[t].slot;
    ThreadIsOk(s, t);
    CleanedSame(s, s');
    ScrapeOneTransfers(s, t);
    ScrapeOneThreads(s, t);
    if slot.Cached? {
      CountedAfter(s, s', slot.sv, {InSlot(t)}, {InScrape(t)});
      InRangeAfter(s, s', slot.sv, {InSlot(t)}, {InScrape(t)});
    } else {
      CountedAfter(s, s', s.current, {}, {});
      InRangeAfter(s, s', s.current, {}, {});
    }
  }

  /** The pointer to the current SuperVersion becomes the installer's pointer to
      the previous one. */
  lemma PublishHolds(s: State, k: Token)
    requires Enabled(s, Publish)
    ensures Holds(Do(s, Publish), k) ==
            if k == CurrentPointer then Some(|s.svs|) else if k == PreviousPointer then Some(s.current) else Holds(s, k)
  {
  }

  lemma PublishHolders(s: State, sv: SvId)
    requires Inv(s) && Enabled(s, Publish) && sv <= |s.svs|
    ensures Holders(Do(s, Publish), sv) ==
            if sv == |s.svs| then {CurrentPointer}
            else if sv == s.current then Holders(s, sv) - {CurrentPointer} + {PreviousPointer}
            else Holders(s, sv)
    ensures CurrentPointer in Holders(s, s.current) && PreviousPointer !in Holders(s, sv)
    ensures sv != s.current ==> CurrentPointer !in Holders(s, sv)
  {
    hide Slots, Fresh, Cleaned, Counted, Holders, Do;
    var s' := Do(s, Publish);
    forall k
      ensures k in Holders(s', sv) <==>
        if k == CurrentPointer then sv == |s.svs|
        else if k == PreviousPointer then sv == s.current
        else k in Holders(s, sv) && sv < |s.svs|
    {
      HoldersAre(s, sv, k);
      HoldersAre(s', sv, k);
      PublishHolds(s, k);
      if Holds(s, k).Some? { HeldInRange(s, k); }
    }
    HoldersAre(s, s.current, CurrentPointer);
    HoldersAre(s, sv, CurrentPointer);
    HoldersAre(s, sv, PreviousPointer);
  }

  lemma PublishIs(s: State)
    requires Enabled(s, Publish)
    ensures s.mutex == Entered
    ensures Do(s, Publish) ==
            s.(svs := s.svs + [Sv(s.number + 1, 1, 0)], previous := Some(s.current), current := |s.svs|,
               number := s.number + 1, mutex := Scraping(s.threads.Keys))
  {
  }

  lemma PublishCounts(s: State)
    requires Inv(s) && Enabled(s, Publish)
    ensures Counted(Do(s, Publish))
  {
    hide Holders, Holds, Slots, Fresh, Cleaned, Shape, Do, Enabled;
    var s' := Do(s, Publish);
    forall sv | 0 <= sv < |s'.svs| ensures s'.svs[sv].refs == |Holders(s', sv)| {
      PublishIs(s);
      PublishHolders(s, sv);
    }
  }

  lemma PublishShape(s: State)
    requires Inv(s) && Enabled(s, Publish)
    ensures Shape(Do(s, Publish))
  {
    hide Holders, Holds, Slots, Fresh, Cleaned, Counted, Do, Enabled;
    PublishIs(s);
    var s' := Do(s, Publish);
    forall k | Holds(s', k).Some? ensures Holds(s', k).value < |s'.svs| {
      PublishHolds(s, k);
    }
  }

  lemma PublishKeeps(s: State)
    requires Inv(s) && Enabled(s, Publish)
    ensures Inv(Do(s, Publish))
  {
    hide Slots, Fresh, Cleaned, Counted, Shape, Do, Enabled;
    PublishShape(s);
    PublishCounts(s);
    PublishCleans(s);
    PublishThreads(s);
  }

  lemma PublishThreads(s: State)
    requires Inv(s) && Enabled(s, Publish)
    ensures Slots(Do(s, Publish)) && Fresh(Do(s, Publish))
  {
    hide Cleaned, Counted, Holders, Holds;
  }

  lemma PublishCleans(s: State)
    requires Inv(s) && Enabled(s, Publish)
    ensures Cleaned(Do(s, Publish))
  {
    hide Slots, Fresh, Counted, Holders, Shape;
    var s' := Do(s, Publish);
    assert forall c :: Cleaning(s', c) == Cleaning(s, c);
    forall x | 0 <= x < |s'.svs| && s'.svs[x].refs == 0 && s'.svs[x].cleanups == 0
      ensures exists c :: Cleaning(s', c) == Some(x)
    {
      var c :| Cleaning(s, c) == Some(x);
      assert Cleaning(s', c) == Some(x);
    }
  }

  lemma StepKeepsInv(s: State, step: Step)
    requires Inv(s) && Enabled(s, step)
    ensures Inv(Do(s, step))
  {
    hide Inv, Do;
    match step
    case Spawn(t) => SpawnKeeps(s, t);
    case Exit(t) => ExitKeeps(s, t);
    case Swap(t) => SwapKeeps(s, t);
    case Check(t) => CheckKeeps(s, t);
    case UnrefOutdated(t) => UnrefOutdatedKeeps(s, t);
    case Lock(t) => LockKeeps(s, t);
    case Clean(t) => CleanKeeps(s, t);
    case RefCurrent(t) => RefCurrentKeeps(s, t);
    case Unlock(t) => UnlockKeeps(s, t);
    case Return(t) => ReturnKeeps(s, t);
    case TakeRef(t) => TakeRefKeeps(s, t);
    case ReturnRef(t, n) => ReturnRefKeeps(s, t, n);
    case DropLost(t, n) => DropLostKeeps(s, t, n);
    case PickExternal(t, n) => PickExternalKeeps(s, t, n);
    case UnrefReleasing(t) => UnrefReleasingKeeps(s, t);
    case BeginInstall => BeginInstallKeeps(s);
    case Publish => PublishKeeps(s);
    case ScrapeOne(t) => ScrapeOneKeeps(s, t);
    case EndScrape => EndScrapeKeeps(s);
    case UnrefScraped(t) => UnrefScrapedKeeps(s, t);
    case DropOld => DropOldKeeps(s);
    case CleanOld => CleanOldKeeps(s);
    case EndInstall => EndInstallKeeps(s);
  }

  // ---- whole runs ----------------------------------------------------------

  ghost predicate Reachable(s: State, steps: seq<Step>)
    decreases |steps|
  {
    if steps == [] then s == Init()
    else
      var last := |steps| - 1;
      exists p :: Reachable(p, steps[..last]) && Enabled(p, steps[last]) && s == Do(p, steps[last])
  }

  lemma {:induction false} ReachableInv(s: State, steps: seq<Step>)
    requires Reachable(s, steps)
    ensures Inv(s)
    decreases |steps|
  {
    if steps == [] {
      InitInv();
    } else {
      var last := |steps| - 1;
      var p :| Reachable(p, steps[..last]) && Enabled(p, steps[last]) && s == Do(p, steps[last]);
      ReachableInv(p, steps[..last]);
      StepKeepsInv(p, steps[last]);
    }
  }

  lemma InitInv()
    ensures Inv(Init())
  {
    var s := Init();
    assert Holders(s, 0) == {CurrentPointer};
    assert forall c :: Cleaning(s, c) == None;
  }

  /** In every reachable state each count equals the number of holders; nobody
      holds a SuperVersion that has been cleaned up; a SuperVersion without
      holders is cleaned up once, never twice. */
  lemma CountsAreExact(s: State, steps: seq<Step>, sv: SvId)
    requires Reachable(s, steps) && sv < |s.svs|
    ensures s.svs[sv].refs == |Holders(s, sv)|
    ensures Holders(s, sv) != {} ==> s.svs[sv].cleanups == 0
    ensures s.svs[sv].cleanups <= 1
    ensures Holders(s, sv) == {} && s.svs[sv].cleanups == 0 ==> exists c :: Cleaning(s, c) == Some(sv)
    ensures forall c, d :: Cleaning(s, c) == Some(sv) && Cleaning(s, d) == Some(sv) ==> c == d
    ensures forall c :: Cleaning(s, c) == Some(sv) ==> s.svs[sv].cleanups == 0
  {
    hide Holders, Shape, Slots, Fresh;
    ReachableInv(s, steps);
    if Holders(s, sv) != {} {
      assert |Holders(s, sv)| > 0;
    }
  }

  /** Every assertion that the source makes holds at every step of every run. */
  lemma AssertionsHold(s: State, steps: seq<Step>, step: Step)
    requires Reachable(s, steps) && Enabled(s, step)
    ensures SourceAssertions(s, step)
  {
    ReachableInv(s, steps);
    StepAsserts(s, step);
  }

  /** The steps of an installer that give back references. */
  predicate Unrefs(step: Step) {
    step.UnrefScraped? || step.DropOld? || step.CleanOld?
  }

  lemma InstallerAsserts(s: State, step: Step)
    requires Inv(s) && Enabled(s, step) && Unrefs(step)
    ensures SourceAssertions(s, step)
  {
    hide Counted, Slots, Fresh, Cleaned, Holders, Shape;
    match step
    case UnrefScraped(t) =>
      HeldInRange(s, InScrape(t));
      ScrapedIsPrevious(s, t);
      TwoHolders(s, s.scraped[t], InScrape(t), PreviousPointer);
    case DropOld =>
      HeldInRange(s, PreviousPointer);
      OneHolder(s, s.previous.value, PreviousPointer);
    case CleanOld => CleaningIsDue(s, ByInstaller);
  }

  lemma StepAsserts(s: State, step: Step)
    requires Inv(s) && Enabled(s, step)
    ensures SourceAssertions(s, step)
  {
    hide Counted, Slots, Fresh, Cleaned, Holders, Shape;
    match step
    case Exit(t) => ThreadIsOk(s, t); ExitIsNotLast(s, t);
    case Swap(t) => ThreadIsOk(s, t);
    case UnrefOutdated(t) =>
      ThreadIsOk(s, t);
      if s.threads[t].pc.ptr.Some? { OneHolder(s, s.threads[t].pc.ptr.value, InHand(t)); }
    case Clean(t) => CleaningIsDue(s, ByThread(t));
    case Return(t) => ThreadIsOk(s, t);
    case ReturnRef(t, n) => ThreadIsOk(s, t);
    case DropLost(t, n) =>
      ThreadIsOk(s, t);
      TwoHolders(s, s.threads[t].pc.sv, InHand(t), Second(t));
    case UnrefReleasing(t) =>
      ThreadIsOk(s, t);
      OneHolder(s, s.threads[t].pc.sv, InHand(t));
    case UnrefScraped(t) => InstallerAsserts(s, step);
    case DropOld => InstallerAsserts(s, step);
    case CleanOld => InstallerAsserts(s, step);
    case _ =>
  }

  lemma ScrapedIsPrevious(s: State, t: ThreadId)
    requires Shape(s) && t in s.scraped
    ensures s.previous == Some(s.scraped[t])
  {
  }

  /** While no install is under way, every cached SuperVersion is the current
      one. */
  lemma CachedIsCurrent(s: State, steps: seq<Step>, t: ThreadId)
    requires Reachable(s, steps) && t in s.threads && s.threads[t].slot.Cached?
    requires s.mutex == Free || s.mutex.Reader?
    ensures s.threads[t].slot.sv == s.current < |s.svs| && s.svs[s.current].version == s.number
  {
    ReachableInv(s, steps);
    ThreadIsOk(s, t);
  }

  /** What GetThreadLocalSuperVersion returns is not older than what was current
      when it was called. */
  lemma ReturnsFresh(s: State, steps: seq<Step>, t: ThreadId)
    requires Reachable(s, steps) && t in s.threads && s.threads[t].pc.Using?
    ensures s.threads[t].pc.sv < |s.svs| && s.svs[s.threads[t].pc.sv].version >= s.threads[t].start
  {
    ReachableInv(s, steps);
    ThreadIsOk(s, t);
  }
}
