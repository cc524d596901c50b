/** Safety of the CLOCK shard under every interleaving. */
module ClockProof {
  import opened ClockCache

  // ---- reading program counters --------------------------------------------

  predicate HasMutex(pc: Pc) {
    match pc
    case Evicting(_) => true
    case Evicted(_, _) => true
    case Recycling(_, _) => true
    case Unsetting(_, _) => true
    case Erasing(_) => true
    case Clearing => true
    case Sweeping(_) => true
    case Filled(_, _) => true
    case Stored(_, _) => true
    case Placing(_, _) => true
    case Charging(_, _) => true
    case Unlocking => true
    case _ => false
  }

  /** Recycling and Unsetting go on with one of these. */
  predicate Continues(pc: Pc) {
    pc.Unlocking? || pc.Evicting? || pc.Placing? || pc.Sweeping?
  }

  predicate WellNested(pc: Pc) {
    pc.Recycling? || pc.Unsetting? ==> Continues(pc.next)
  }

  /** The handle that only this thread may touch: it is bound to recycle it, or
      has just taken it out of the recycle bin. */
  function Claim(pc: Pc): Option<HandleId> {
    match pc
    case MustRecycle(h) => Some(h)
    case Evicted(h, _) => Some(h)
    case Recycling(h, _) => Some(h)
    case Filled(_, h) => Some(h)
    case _ => None
  }

  /** The reference that a call in progress is about to use up or return. */
  function RefOf(pc: Pc): Option<RefId> {
    match pc
    case Reffed(_, r) => Some(r)
    case Marking(r, _) => Some(r)
    case Dropping(r, _) => Some(r)
    case _ => None
  }

  /** Where an insertion under way stands, looking through a recycling or an
      unsetting that has to be finished first. */
  function Core(pc: Pc): Pc {
    if pc.Recycling? || pc.Unsetting? then pc.next else pc
  }

  /** The handle being inserted, as long as it is not counted in usage_. */
  function Incoming(pc: Pc): Option<HandleId> {
    match Core(pc)
    case Filled(_, h) => Some(h)
    case Stored(_, h) => Some(h)
    case Placing(_, h) => Some(h)
    case Charging(_, h) => Some(h)
    case _ => None
  }

  /** May handle h be in cache although the table does not lead to it? */
  predicate Loose(pc: Pc, h: HandleId) {
    || (pc.Unsetting? && pc.h == h)
    || match Core(pc)
       case Stored(_, x) => h == x
       case Placing(_, x) => h == x
       case Sweeping(i) => i <= h
       case _ => false
  }

  /** The program counter of the thread that holds the mutex. */
  function Holder(s: State): Pc {
    if s.mutex.Some? && s.mutex.value in s.threads then s.threads[s.mutex.value] else Idle
  }

  // ---- the invariant -------------------------------------------------------

  ghost predicate Locks(s: State) {
    && (s.mutex.Some? ==> s.mutex.value in s.threads)
    && (forall t :: t in s.threads ==> (HasMutex(s.threads[t]) <==> s.mutex == Some(t)))
    && (forall t :: t in s.threads ==> WellNested(s.threads[t]))
  }

  function Holders(s: State, h: HandleId): set<RefId> {
    set r | r in s.held && s.held[r] == h
  }

  /** The reference count in the flags word is the number of references. */
  ghost predicate Counted(s: State) {
    && (forall h :: 0 <= h < |s.handles| ==> s.handles[h].refs == |Holders(s, h)|)
    && (forall r :: r in s.held ==> s.held[r] < |s.handles|)
  }

  /** Every reference belongs to one call in progress or to a client, and a
      client's reference leads to the key that was asked for. */
  ghost predicate Answered(s: State) {
    && (forall t :: t in s.threads && RefOf(s.threads[t]).Some? ==>
          RefOf(s.threads[t]).value in s.held && RefOf(s.threads[t]).value !in s.answers)
    && (forall t, u :: t in s.threads && u in s.threads && RefOf(s.threads[t]).Some? && RefOf(s.threads[t]) == RefOf(s.threads[u]) ==> t == u)
    && (forall r :: r in s.answers ==> r in s.held)
    && (forall r :: r in s.answers && s.held[r] < |s.handles| ==>
          s.answers[r] == (s.handles[s.held[r]].id, s.handles[s.held[r]].birth))
  }

  /** A handle is in the bin, or in use, or claimed by exactly one thread. */
  ghost predicate Claimed(s: State) {
    && (forall h :: h in s.bin ==> h < |s.handles| && !s.handles[h].inCache && s.handles[h].refs == 0)
    && (forall t :: t in s.threads && Claim(s.threads[t]).Some? ==>
          var h := Claim(s.threads[t]).value;
          h < |s.handles| && h !in s.bin && !s.handles[h].inCache && s.handles[h].refs == 0)
    && (forall t, u :: t in s.threads && u in s.threads && Claim(s.threads[t]).Some? && Claim(s.threads[t]) == Claim(s.threads[u]) ==> t == u)
    && (forall h :: 0 <= h < |s.handles| && h !in s.bin && !s.handles[h].inCache && s.handles[h].refs == 0 ==>
          exists t :: t in s.threads && Claim(s.threads[t]) == Some(h))
  }

  type Handles = seq<Handle>
  type Bin = set<HandleId>
  type Table = map<CacheKey, HandleId>

  /** The table leads to the handles in cache, up to what the holder of the
      mutex, at pc, is about to set right. */
  ghost predicate Fits(handles: Handles, bin: Bin, table: Table, pc: Pc) {
    && (forall id :: id in table ==>
          var h := table[id];
          h < |handles| && h !in bin && handles[h].id == id && (handles[h].inCache || (pc.Evicted? && pc.h == h)))
    && (forall h :: 0 <= h < |handles| && handles[h].inCache && !Loose(pc, h) ==>
          handles[h].id in table && table[handles[h].id] == h)
    && (pc.Evicted? ==>
          pc.h < |handles| && !handles[pc.h].inCache && handles[pc.h].id in table && table[handles[pc.h].id] == pc.h)
    && (pc.Unsetting? ==> pc.h < |handles| && forall id :: id in table ==> table[id] != pc.h)
    && (Core(pc).Sweeping? ==> table == map[])
    && (Core(pc).Placing? ==> Core(pc).ins.id !in table)
    && (Incoming(pc).Some? ==>
          var h := Incoming(pc).value;
          && h < |handles| && h !in bin
          && handles[h].id == Core(pc).ins.id && handles[h].total == Core(pc).ins.total
          && (!pc.Filled? ==> handles[h].inCache)
          && (!pc.Charging? ==> forall id :: id in table ==> table[id] != h)
          && (pc.Unsetting? ==> pc.h != h))
  }

  ghost predicate Tabled(s: State) {
    Fits(s.handles, s.bin, s.table, Holder(s))
  }

  /** Each insertion has its own number, and is recycled at most once. */
  ghost predicate Born(s: State) {
    && (forall h :: 0 <= h < |s.handles| ==> s.handles[h].birth < s.inserted)
    && (forall g, h :: 0 <= g < h < |s.handles| ==> s.handles[g].birth != s.handles[h].birth)
    && (forall h :: 0 <= h < |s.handles| ==> (h in s.bin <==> s.handles[h].birth in s.recycled))
    && (forall b :: b in s.recycled ==> b < s.inserted)
    && (forall i, j :: 0 <= i < j < |s.recycled| ==> s.recycled[i] != s.recycled[j])
  }

  /** Total charge of the handles outside `out`, of the first n. */
  function Sum(handles: seq<Handle>, out: set<HandleId>, n: nat): int
    requires n <= |handles|
  {
    if n == 0 then 0 else Sum(handles, out, n - 1) + if n - 1 in out then 0 else handles[n - 1].total
  }

  function Uncounted(s: State): set<HandleId> {
    s.bin + if Incoming(Holder(s)).Some? then {Incoming(Holder(s)).value} else {}
  }

  ghost predicate Charged(s: State) {
    s.usage == Sum(s.handles, Uncounted(s), |s.handles|)
  }

  ghost predicate Inv(s: State) {
    Locks(s) && Counted(s) && Answered(s) && Claimed(s) && Tabled(s) && Born(s) && Charged(s)
  }

  // ---- frames --------------------------------------------------------------

  /** A thread that does not exist yet counts as idle. */
  function PcOf(s: State, t: ThreadId): Pc {
    if t in s.threads then s.threads[t] else Idle
  }

  /** Thread t alone has moved. */
  predicate Moved(s: State, s': State, t: ThreadId) {
    t in s'.threads && s'.threads == s.threads[t := s'.threads[t]]
  }

  lemma IdleHasNothing()
    ensures !HasMutex(Idle) && Claim(Idle) == None && RefOf(Idle) == None && WellNested(Idle)
  {
  }

  /** The handles differ at most in usage bits and reference counts. */
  ghost predicate SameSkeleton(s: State, s': State) {
    && |s'.handles| == |s.handles|
    && forall h :: 0 <= h < |s.handles| ==>
         s'.handles[h] == s.handles[h].(usage := s'.handles[h].usage, refs := s'.handles[h].refs)
  }

  ghost predicate SameFlags(s: State, s': State) {
    && |s'.handles| == |s.handles|
    && forall h :: 0 <= h < |s.handles| ==>
         s'.handles[h].inCache == s.handles[h].inCache && s'.handles[h].refs == s.handles[h].refs
  }

  lemma LocksKept(s: State, s': State, t: ThreadId)
    requires Locks(s) && Moved(s, s', t) && s'.mutex == s.mutex
    requires HasMutex(s'.threads[t]) == HasMutex(PcOf(s, t)) && WellNested(s'.threads[t])
    ensures Locks(s')
    ensures !HasMutex(PcOf(s, t)) ==> Holder(s') == Holder(s)
    ensures HasMutex(PcOf(s, t)) ==> Holder(s) == PcOf(s, t) && Holder(s') == s'.threads[t]
  {
    hide HasMutex, WellNested;
    IdleHasNothing();
  }

  lemma CountedKept(s: State, s': State)
    requires Counted(s) && s'.held == s.held && |s'.handles| == |s.handles|
    requires forall h :: 0 <= h < |s.handles| ==> s'.handles[h].refs == s.handles[h].refs
    ensures Counted(s')
  {
    assert forall h: HandleId :: Holders(s', h) == Holders(s, h);
  }

  lemma AnsweredKept(s: State, s': State, t: ThreadId)
    requires Answered(s) && Moved(s, s', t) && s'.held == s.held && s'.answers == s.answers
    requires RefOf(s'.threads[t]).None? || RefOf(s'.threads[t]) == RefOf(PcOf(s, t))
    requires |s'.handles| == |s.handles|
    requires forall h :: 0 <= h < |s.handles| ==> s'.handles[h].id == s.handles[h].id && s'.handles[h].birth == s.handles[h].birth
    ensures Answered(s')
  {
    hide RefOf;
    IdleHasNothing();
  }

  lemma ClaimedKept(s: State, s': State, t: ThreadId)
    requires Claimed(s) && Moved(s, s', t) && s'.bin == s.bin && SameFlags(s, s')
    requires Claim(s'.threads[t]) == Claim(PcOf(s, t))
    ensures Claimed(s')
  {
    hide Claim;
    IdleHasNothing();
    forall h | 0 <= h < |s.handles| && h !in s.bin && !s.handles[h].inCache && s.handles[h].refs == 0
      ensures exists u :: u in s'.threads && Claim(s'.threads[u]) == Some(h)
    {
      var u :| u in s.threads && Claim(s.threads[u]) == Some(h);
      assert u in s'.threads && Claim(s'.threads[u]) == Some(h);
    }
  }

  lemma BornKept(s: State, s': State)
    requires Born(s) && |s'.handles| == |s.handles| && s'.bin == s.bin
    requires s'.inserted == s.inserted && s'.recycled == s.recycled
    requires forall h :: 0 <= h < |s.handles| ==> s'.handles[h].birth == s.handles[h].birth
    ensures Born(s')
  {
  }

  lemma SumSame(a: seq<Handle>, b: seq<Handle>, out: set<HandleId>, n: nat)
    requires n <= |a| && n <= |b|
    requires forall h :: 0 <= h < n ==> a[h].total == b[h].total || h in out
    ensures Sum(a, out, n) == Sum(b, out, n)
  {
  }

  lemma ChargedKept(s: State, s': State)
    requires Charged(s) && |s'.handles| == |s.handles| && s'.usage == s.usage
    requires Uncounted(s') == Uncounted(s)
    requires forall h :: 0 <= h < |s.handles| ==> s'.handles[h].total == s.handles[h].total
    ensures Charged(s')
  {
    SumSame(s.handles, s'.handles, Uncounted(s), |s.handles|);
  }

  lemma TabledKept(s: State, s': State)
    requires Tabled(s) && SameSkeleton(s, s') && s'.bin == s.bin && s'.table == s.table && Holder(s') == Holder(s)
    ensures Tabled(s')
  {
    hide Holder, Core, Incoming, Loose;
  }

  /** Steps outside the mutex that leave bin, table, and skeleton alone. */
  lemma LockFreeKeeps(s: State, s': State, t: ThreadId)
    requires Inv(s) && Moved(s, s', t) && SameSkeleton(s, s')
    requires !HasMutex(PcOf(s, t)) && !HasMutex(s'.threads[t]) && WellNested(s'.threads[t])
    requires s'.bin == s.bin && s'.table == s.table && s'.usage == s.usage && s'.mutex == s.mutex
    requires s'.inserted == s.inserted && s'.recycled == s.recycled
    requires Counted(s') && Answered(s') && Claimed(s')
    ensures Inv(s')
  {
    hide Counted, Answered, Claimed, Fits, Born, Charged, Holder, HasMutex;
    LocksKept(s, s', t);
    TabledKept(s, s');
    BornKept(s, s');
    ChargedKept(s, s');
  }

  // ---- references ----------------------------------------------------------

  lemma HoldersGain(s: State, s': State, r: RefId, h: HandleId, g: HandleId)
    requires r !in s.held && s'.held == s.held[r := h]
    ensures |Holders(s', g)| == |Holders(s, g)| + if g == h then 1 else 0
  {
    if g == h {
      assert Holders(s', g) == Holders(s, g) + {r};
    } else {
      assert Holders(s', g) == Holders(s, g);
    }
  }

  lemma CountedGain(s: State, s': State, r: RefId, h: HandleId)
    requires Counted(s) && |s'.handles| == |s.handles| && h < |s.handles|
    requires r !in s.held && s'.held == s.held[r := h]
    requires forall g :: 0 <= g < |s.handles| ==> s'.handles[g].refs == s.handles[g].refs + if g == h then 1 else 0
    ensures Counted(s')
  {
    hide Holders;
    forall g | 0 <= g < |s.handles| ensures s'.handles[g].refs == |Holders(s', g)| {
      HoldersGain(s, s', r, h, g);
    }
  }

  lemma HoldersLoss(s: State, s': State, r: RefId, g: HandleId)
    requires r in s.held && s'.held == s.held - {r}
    ensures |Holders(s', g)| == |Holders(s, g)| - if g == s.held[r] then 1 else 0
  {
    if g == s.held[r] {
      assert Holders(s', g) == Holders(s, g) - {r};
    } else {
      assert Holders(s', g) == Holders(s, g);
    }
  }

  lemma CountedLoss(s: State, s': State, r: RefId)
    requires Counted(s) && |s'.handles| == |s.handles|
    requires r in s.held && s'.held == s.held - {r}
    requires forall g :: 0 <= g < |s.handles| ==> s'.handles[g].refs == s.handles[g].refs - if g == s.held[r] then 1 else 0
    ensures Counted(s')
  {
    hide Holders;
    forall g | 0 <= g < |s.handles| ensures s'.handles[g].refs == |Holders(s', g)| {
      HoldersLoss(s, s', r, g);
    }
  }

  lemma HeldIsCounted(s: State, r: RefId)
    requires Counted(s) && r in s.held
    ensures s.held[r] < |s.handles| && s.handles[s.held[r]].refs >= 1
  {
    assert r in Holders(s, s.held[r]);
  }

  // ---- claims --------------------------------------------------------------

  predicate InUse(x: Handle) {
    x.inCache || x.refs != 0
  }

  /** All flags but those of h are the same. */
  ghost predicate SameFlagsBut(s: State, s': State, h: HandleId) {
    && |s'.handles| == |s.handles| && h < |s.handles|
    && forall g :: 0 <= g < |s.handles| && g != h ==>
         s'.handles[g].inCache == s.handles[g].inCache && s'.handles[g].refs == s.handles[g].refs
  }

  /** Handle h stays in use. */
  lemma ClaimedBusy(s: State, s': State, t: ThreadId, h: HandleId)
    requires Claimed(s) && Moved(s, s', t) && s'.bin == s.bin && SameFlagsBut(s, s', h)
    requires InUse(s.handles[h]) && InUse(s'.handles[h])
    requires Claim(s'.threads[t]) == Claim(PcOf(s, t))
    ensures Claimed(s')
  {
    hide Claim;
    IdleHasNothing();
    forall g | 0 <= g < |s'.handles| && g !in s'.bin && !InUse(s'.handles[g])
      ensures exists u :: u in s'.threads && Claim(s'.threads[u]) == Some(g)
    {
      var u :| u in s.threads && Claim(s.threads[u]) == Some(g);
      assert u in s'.threads && Claim(s'.threads[u]) == Some(g);
    }
  }

  /** Thread t takes handle h out of use and claims it. */
  lemma ClaimedNew(s: State, s': State, t: ThreadId, h: HandleId)
    requires Claimed(s) && Moved(s, s', t) && s'.bin == s.bin && SameFlagsBut(s, s', h)
    requires InUse(s.handles[h]) && !s'.handles[h].inCache && s'.handles[h].refs == 0
    requires Claim(PcOf(s, t)) == None && Claim(s'.threads[t]) == Some(h)
    ensures Claimed(s')
  {
    hide Claim;
    IdleHasNothing();
    forall g | 0 <= g < |s'.handles| && g !in s'.bin && !InUse(s'.handles[g])
      ensures exists u :: u in s'.threads && Claim(s'.threads[u]) == Some(g)
    {
      if g != h {
        var u :| u in s.threads && Claim(s.threads[u]) == Some(g);
        assert u in s'.threads && Claim(s'.threads[u]) == Some(g);
      }
    }
  }

  // ---- steps outside the mutex ---------------------------------------------

  lemma FindKeeps(s: State, t: ThreadId, id: CacheKey)
    requires Inv(s) && Enabled(s, Find(t, id))
    ensures Inv(Do(s, Find(t, id)))
  {
    hide Counted, Answered, Claimed, Fits, Born, Charged;
    var s' := Do(s, Find(t, id));
    CountedKept(s, s');
    AnsweredKept(s, s', t);
    ClaimedKept(s, s', t);
    LockFreeKeeps(s, s', t);
  }

  lemma RefKeeps(s: State, t: ThreadId, r: RefId)
    requires Inv(s) && Enabled(s, Ref(t, r))
    ensures Inv(Do(s, Ref(t, r)))
  {
    hide Counted, Answered, Claimed, Fits, Born, Charged;
    var s' := Do(s, Ref(t, r));
    var h := s.threads[t].h;
    if s.handles[h].inCache {
      CountedGain(s, s', r, h);
      AnsweredGain(s, s', t, r, h);
      ClaimedBusy(s, s', t, h);
    } else {
      CountedKept(s, s');
      AnsweredKept(s, s', t);
      ClaimedKept(s, s', t);
    }
    LockFreeKeeps(s, s', t);
  }

  /** A thread in a lookup gains reference r. */
  lemma AnsweredGain(s: State, s': State, t: ThreadId, r: RefId, h: HandleId)
    requires Answered(s) && Moved(s, s', t) && SameSkeleton(s, s')
    requires r !in s.held && r !in s.answers && s'.held == s.held[r := h] && s'.answers == s.answers
    requires RefOf(s'.threads[t]) == Some(r)
    ensures Answered(s')
  {
    hide RefOf;
    IdleHasNothing();
  }

  lemma CompareKeeps(s: State, t: ThreadId)
    requires Inv(s) && Enabled(s, Compare(t))
    ensures Inv(Do(s, Compare(t)))
  {
    hide Counted, Answered, Claimed, Fits, Born, Charged;
    var s' := Do(s, Compare(t));
    var pc := s.threads[t];
    CountedKept(s, s');
    if s.handles[s.held[pc.r]].id == pc.id {
      AnsweredReturn(s, s', t, pc.r);
    } else {
      AnsweredKept(s, s', t);
    }
    ClaimedKept(s, s', t);
    LockFreeKeeps(s, s', t);
  }

  /** A lookup hands its reference to the client. */
  lemma AnsweredReturn(s: State, s': State, t: ThreadId, r: RefId)
    requires Answered(s) && Moved(s, s', t) && s'.handles == s.handles && s'.held == s.held
    requires RefOf(PcOf(s, t)) == Some(r) && RefOf(s'.threads[t]) == None
    requires r in s.held && s.held[r] < |s.handles|
    requires s'.answers == s.answers[r := (s.handles[s.held[r]].id, s.handles[s.held[r]].birth)]
    ensures Answered(s')
  {
    hide RefOf;
    IdleHasNothing();
  }

  lemma AgainKeeps(s: State, t: ThreadId, r: RefId, r': RefId)
    requires Inv(s) && Enabled(s, Again(t, r, r'))
    ensures Inv(Do(s, Again(t, r, r')))
  {
    hide Counted, Answered, Claimed, Fits, Born, Charged;
    var s' := Do(s, Again(t, r, r'));
    var h := s.held[r];
    if s.handles[h].inCache {
      CountedGain(s, s', r', h);
      AnsweredAgain(s, s', t, r, r');
      ClaimedBusy(s, s', t, h);
    } else {
      CountedKept(s, s');
      AnsweredKept(s, s', t);
      ClaimedKept(s, s', t);
    }
    LockFreeKeeps(s, s', t);
  }

  /** A client gains a reference like one it has. */
  lemma AnsweredAgain(s: State, s': State, t: ThreadId, r: RefId, r': RefId)
    requires Answered(s) && Moved(s, s', t) && SameSkeleton(s, s') && PcOf(s, t) == Idle == s'.threads[t]
    requires r in s.answers && r in s.held && r' !in s.held && r' !in s.answers
    requires s'.held == s.held[r' := s.held[r]] && s'.answers == s.answers[r' := s.answers[r]]
    ensures Answered(s')
  {
    hide RefOf;
    IdleHasNothing();
  }

  lemma ReleaseKeeps(s: State, t: ThreadId, r: RefId, force: bool)
    requires Inv(s) && Enabled(s, Release(t, r, force))
    ensures Inv(Do(s, Release(t, r, force)))
  {
    hide Counted, Answered, Claimed, Fits, Born, Charged;
    var s' := Do(s, Release(t, r, force));
    CountedKept(s, s');
    AnsweredRelease(s, s', t, r);
    ClaimedKept(s, s', t);
    LockFreeKeeps(s, s', t);
  }

  lemma AnsweredRelease(s: State, s': State, t: ThreadId, r: RefId)
    requires Answered(s) && Moved(s, s', t) && s'.handles == s.handles && s'.held == s.held
    requires RefOf(PcOf(s, t)) == None && RefOf(s'.threads[t]) == Some(r)
    requires r in s.answers && s'.answers == s.answers - {r}
    ensures Answered(s')
  {
    hide RefOf;
    IdleHasNothing();
  }

  lemma MarkKeeps(s: State, t: ThreadId)
    requires Inv(s) && Enabled(s, Mark(t))
    ensures Inv(Do(s, Mark(t)))
  {
    hide Counted, Answered, Claimed, Fits, Born, Charged;
    var s' := Do(s, Mark(t));
    CountedKept(s, s');
    AnsweredKept(s, s', t);
    ClaimedKept(s, s', t);
    LockFreeKeeps(s, s', t);
  }

  lemma DropKeeps(s: State, t: ThreadId)
    requires Inv(s) && Enabled(s, Drop(t))
    ensures Inv(Do(s, Drop(t)))
  {
    hide Counted, Answered, Claimed, Fits, Born, Charged;
    var s' := Do(s, Drop(t));
    var r := s.threads[t].r;
    var h := s.held[r];
    HeldIsCounted(s, r);
    CountedLoss(s, s', r);
    AnsweredDrop(s, s', t, r);
    if s.handles[h].refs == 1 && !s.handles[h].inCache {
      ClaimedNew(s, s', t, h);
    } else {
      ClaimedBusy(s, s', t, h);
    }
    LockFreeKeeps(s, s', t);
  }

  lemma AnsweredDrop(s: State, s': State, t: ThreadId, r: RefId)
    requires Answered(s) && Moved(s, s', t) && SameSkeleton(s, s')
    requires RefOf(PcOf(s, t)) == Some(r) && RefOf(s'.threads[t]) == None
    requires s'.held == s.held - {r} && s'.answers == s.answers
    ensures Answered(s')
  {
    hide RefOf;
    IdleHasNothing();
    assert r !in s.answers;
  }

  lemma ReadKeeps(s: State, t: ThreadId)
    requires Inv(s) && Enabled(s, Read(t))
    ensures Inv(Do(s, Read(t)))
  {
    hide Counted, Answered, Claimed, Fits, Born, Charged;
    var s' := Do(s, Read(t));
    CountedKept(s, s');
    AnsweredKept(s, s', t);
    ClaimedKept(s, s', t);
    LockFreeKeeps(s, s', t);
  }

  lemma CallKeeps(s: State, t: ThreadId, op: Pc)
    requires Inv(s) && Enabled(s, Call(t, op))
    ensures Inv(Do(s, Call(t, op)))
  {
    hide Counted, Answered, Claimed, Fits, Born, Charged;
    var s' := Do(s, Call(t, op));
    CountedKept(s, s');
    AnsweredKept(s, s', t);
    ClaimedKept(s, s', t);
    LockFreeKeeps(s, s', t);
  }

  lemma SpawnKeeps(s: State, t: ThreadId)
    requires Inv(s) && Enabled(s, Spawn(t))
    ensures Inv(Do(s, Spawn(t)))
  {
    hide Counted, Answered, Claimed, Fits, Born, Charged;
    var s' := Do(s, Spawn(t));
    CountedKept(s, s');
    AnsweredKept(s, s', t);
    ClaimedKept(s, s', t);
    LockFreeKeeps(s, s', t);
  }

  // ---- the table, step by step ---------------------------------------------

  lemma FitsLock(handles: Handles, bin: Bin, table: Table, pc: Pc)
    requires Fits(handles, bin, table, Idle) && NeedsLock(pc)
    ensures Fits(handles, bin, table, AfterLock(pc))
  {
  }

  lemma FitsUnlock(handles: Handles, bin: Bin, table: Table)
    requires Fits(handles, bin, table, Unlocking)
    ensures Fits(handles, bin, table, Idle)
  {
  }

  lemma FitsStopEvicting(handles: Handles, bin: Bin, table: Table, pc: Pc)
    requires Fits(handles, bin, table, pc) && pc.Evicting?
    ensures Fits(handles, bin, table, Unlocking)
  {
  }

  lemma FitsUsage(handles: Handles, bin: Bin, table: Table, pc: Pc, h: HandleId, usage: bool)
    requires Fits(handles, bin, table, pc) && h < |handles|
    ensures Fits(handles[h := handles[h].(usage := usage)], bin, table, pc)
  {
    hide Core, Incoming, Loose;
  }

  lemma FitsEvict(handles: Handles, bin: Bin, table: Table, pc: Pc, h: HandleId)
    requires Fits(handles, bin, table, pc) && pc.Evicting? && h < |handles| && handles[h].inCache
    ensures Fits(handles[h := handles[h].(inCache := false)], bin, table, Evicted(h, pc.goal))
  {
  }

  lemma FitsEraseEvicted(handles: Handles, bin: Bin, table: Table, pc: Pc)
    requires Fits(handles, bin, table, pc) && pc.Evicted?
    ensures Fits(handles, bin, table - {handles[pc.h].id}, Recycling(pc.h, Evicting(pc.goal)))
  {
  }

  lemma FitsUnset(handles: Handles, bin: Bin, table: Table, pc: Pc)
    requires Fits(handles, bin, table, pc) && pc.Unsetting? && Continues(pc.next)
    ensures var handles' := handles[pc.h := handles[pc.h].(inCache := false)];
            Fits(handles', bin, table, pc.next) && Fits(handles', bin, table, Recycling(pc.h, pc.next))
  {
  }

  /** An entry is taken out of the table on the way to unset its handle. */
  lemma FitsErase(handles: Handles, bin: Bin, table: Table, pc: Pc, id: CacheKey, next: Pc)
    requires Fits(handles, bin, table, pc) && id in table
    requires (pc.Erasing? && next == Unlocking) || (pc.Stored? && id == pc.ins.id && next == Placing(pc.ins, pc.h))
    ensures Fits(handles, bin, table - {id}, Unsetting(table[id], next))
  {
  }

  lemma FitsNothingToErase(handles: Handles, bin: Bin, table: Table, pc: Pc, id: CacheKey, next: Pc)
    requires Fits(handles, bin, table, pc) && id !in table
    requires (pc.Erasing? && next == Unlocking) || (pc.Stored? && id == pc.ins.id && next == Placing(pc.ins, pc.h))
    ensures Fits(handles, bin, table, next)
  {
  }

  lemma FitsClear(handles: Handles, bin: Bin, table: Table)
    requires Fits(handles, bin, table, Clearing)
    ensures Fits(handles, bin, map[], Sweeping(0))
  {
  }

  lemma FitsSweep(handles: Handles, bin: Bin, table: Table, i: nat)
    requires Fits(handles, bin, table, Sweeping(i))
    ensures Fits(handles, bin, table, if i < |handles| then Unsetting(i, Sweeping(i + 1)) else Unlocking)
  {
  }

  lemma FitsPlace(handles: Handles, bin: Bin, table: Table, pc: Pc)
    requires Fits(handles, bin, table, pc) && pc.Placing?
    ensures Fits(handles, bin, table[pc.ins.id := pc.h], Charging(pc.ins, pc.h))
  {
  }

  lemma FitsRecycle(handles: Handles, bin: Bin, table: Table, pc: Pc)
    requires Fits(handles, bin, table, pc) && pc.Recycling? && Continues(pc.next)
    requires pc.h < |handles| && pc.h !in bin && !handles[pc.h].inCache
    ensures Fits(handles[pc.h := handles[pc.h].(id := CacheKey("", handles[pc.h].id.hash))], bin + {pc.h}, table, pc.next)
    ensures Incoming(pc) != Some(pc.h)
  {
  }

  lemma FitsGrab(handles: Handles, bin: Bin, table: Table, pc: Pc, h: HandleId, x: Handle)
    requires Fits(handles, bin, table, pc) && pc.Evicting? && pc.goal.Some?
    requires h == |handles| || (h in bin && h < |handles| && !handles[h].inCache)
    requires !x.inCache && x.id == pc.goal.value.id && x.total == pc.goal.value.total
    ensures Fits(if h < |handles| then handles[h := x] else handles + [x], bin - {h}, table, Filled(pc.goal.value, h))
  {
  }

  lemma FitsStore(handles: Handles, bin: Bin, table: Table, pc: Pc, x: Handle)
    requires Fits(handles, bin, table, pc) && pc.Filled?
    requires pc.h < |handles| && x.inCache && x.id == handles[pc.h].id && x.total == handles[pc.h].total
    ensures Fits(handles[pc.h := x], bin, table, Stored(pc.ins, pc.h))
  {
  }

  lemma FitsCharge(handles: Handles, bin: Bin, table: Table, pc: Pc)
    requires Fits(handles, bin, table, pc) && pc.Charging?
    ensures Fits(handles, bin, table, Unlocking)
  {
  }

  // ---- taking and leaving the mutex ----------------------------------------

  lemma LocksSwitched(s: State, s': State, t: ThreadId)
    requires Locks(s) && Moved(s, s', t) && t in s.threads
    requires (s.mutex == None && s'.mutex == Some(t)) || (s.mutex == Some(t) && s'.mutex == None)
    requires HasMutex(s'.threads[t]) == s'.mutex.Some? && WellNested(s'.threads[t])
    ensures Locks(s')
    ensures Holder(s) == if s.mutex.Some? then s.threads[t] else Idle
    ensures Holder(s') == if s'.mutex.Some? then s'.threads[t] else Idle
  {
    hide HasMutex, WellNested;
  }

  lemma LockKeeps(s: State, t: ThreadId)
    requires Inv(s) && Enabled(s, Lock(t))
    ensures Inv(Do(s, Lock(t)))
  {
    hide Counted, Answered, Claimed, Fits, Born, Charged, Holder, Locks;
    var s' := Do(s, Lock(t));
    LocksSwitched(s, s', t);
    FitsLock(s.handles, s.bin, s.table, s.threads[t]);
    CountedKept(s, s');
    AnsweredKept(s, s', t);
    ClaimedKept(s, s', t);
    BornKept(s, s');
    ChargedKept(s, s');
  }

  lemma UnlockKeeps(s: State, t: ThreadId)
    requires Inv(s) && Enabled(s, Unlock(t))
    ensures Inv(Do(s, Unlock(t)))
  {
    hide Counted, Answered, Claimed, Fits, Born, Charged, Holder;
    var s' := Do(s, Unlock(t));
    LocksSwitched(s, s', t);
    FitsUnlock(s.handles, s.bin, s.table);
    CountedKept(s, s');
    AnsweredKept(s, s', t);
    ClaimedKept(s, s', t);
    BornKept(s, s');
    ChargedKept(s, s');
  }

  // ---- steps under the mutex -----------------------------------------------

  /** What is left to show for a step of the holder of the mutex that changes
      neither births nor the bin nor references. */
  lemma LockedKeeps(s: State, s': State, t: ThreadId)
    requires Inv(s) && t in s.threads && Moved(s, s', t) && s'.mutex == s.mutex
    requires HasMutex(s.threads[t]) && HasMutex(s'.threads[t]) && WellNested(s'.threads[t])
    requires RefOf(s'.threads[t]) == None
    requires |s'.handles| == |s.handles| && s'.bin == s.bin && s'.held == s.held && s'.answers == s.answers
    requires s'.inserted == s.inserted && s'.recycled == s.recycled
    requires forall h :: 0 <= h < |s.handles| ==>
               s'.handles[h] == s.handles[h].(inCache := s'.handles[h].inCache, usage := s'.handles[h].usage)
    requires s'.usage == s.usage && Incoming(s'.threads[t]) == Incoming(s.threads[t])
    requires Claimed(s') && Fits(s'.handles, s'.bin, s'.table, s'.threads[t])
    ensures Inv(s')
  {
    hide Counted, Answered, Claimed, Fits, Born, Charged, HasMutex, WellNested, Incoming, RefOf;
    LocksKept(s, s', t);
    CountedKept(s, s');
    AnsweredKept(s, s', t);
    BornKept(s, s');
    ChargedKept(s, s');
  }

  /** The table as the holder of the mutex finds it. */
  lemma HolderFits(s: State, t: ThreadId)
    requires Inv(s) && t in s.threads && HasMutex(s.threads[t])
    ensures Fits(s.handles, s.bin, s.table, s.threads[t]) && WellNested(s.threads[t])
  {
    hide Counted, Answered, Claimed, Fits, Born, Charged;
  }

  lemma StopEvictingKeeps(s: State, t: ThreadId)
    requires Inv(s) && Enabled(s, StopEvicting(t))
    ensures Inv(Do(s, StopEvicting(t)))
  {
    hide Counted, Answered, Claimed, Fits, Born, Charged, Locks, Holder;
    var s' := Do(s, StopEvicting(t));
    HolderFits(s, t);
    FitsStopEvicting(s.handles, s.bin, s.table, s.threads[t]);
    ClaimedKept(s, s', t);
    LockedKeeps(s, s', t);
  }

  lemma TryEvictIs(s: State, t: ThreadId, h: HandleId)
    requires Enabled(s, TryEvict(t, h))
    ensures t in s.threads && s.threads[t].Evicting? && h < |s.handles|
    ensures Do(s, TryEvict(t, h)) ==
            (var x := s.handles[h];
             if x.inCache && !x.usage && x.refs == 0 then
               Go(Put(s, h, x.(inCache := false)), t, Evicted(h, s.threads[t].goal))
             else Put(s, h, x.(usage := false)))
  {
  }

  lemma TryEvictKeeps(s: State, t: ThreadId, h: HandleId)
    requires Inv(s) && Enabled(s, TryEvict(t, h))
    ensures Inv(Do(s, TryEvict(t, h)))
  {
    hide Counted, Answered, Claimed, Fits, Born, Charged, Locks, Holder, Do, Enabled;
    TryEvictIs(s, t, h);
    var s' := Do(s, TryEvict(t, h));
    HolderFits(s, t);
    var x := s.handles[h];
    if x.inCache && !x.usage && x.refs == 0 {
      FitsEvict(s.handles, s.bin, s.table, s.threads[t], h);
      ClaimedNew(s, s', t, h);
    } else {
      FitsUsage(s.handles, s.bin, s.table, s.threads[t], h, false);
      ClaimedKept(s, s', t);
    }
    LockedKeeps(s, s', t);
  }

  lemma EraseEvictedKeeps(s: State, t: ThreadId)
    requires Inv(s) && Enabled(s, EraseEvicted(t))
    ensures Inv(Do(s, EraseEvicted(t)))
  {
    hide Counted, Answered, Claimed, Fits, Born, Charged, Locks, Holder;
    var s' := Do(s, EraseEvicted(t));
    HolderFits(s, t);
    FitsEraseEvicted(s.handles, s.bin, s.table, s.threads[t]);
    ClaimedKept(s, s', t);
    LockedKeeps(s, s', t);
  }

  lemma UnsetIs(s: State, t: ThreadId)
    requires Enabled(s, Unset(t))
    ensures t in s.threads && s.threads[t].Unsetting? && s.threads[t].h < |s.handles|
    ensures var pc := s.threads[t];
            var x := s.handles[pc.h];
            Do(s, Unset(t)) ==
            Go(Put(s, pc.h, x.(inCache := false)), t, if x.inCache && x.refs == 0 then Recycling(pc.h, pc.next) else pc.next)
  {
  }

  lemma UnsetKeeps(s: State, t: ThreadId)
    requires Inv(s) && Enabled(s, Unset(t))
    ensures Inv(Do(s, Unset(t)))
  {
    hide Counted, Answered, Claimed, Fits, Born, Charged, Locks, Holder, Do, Enabled;
    UnsetIs(s, t);
    var s' := Do(s, Unset(t));
    HolderFits(s, t);
    FitsUnset(s.handles, s.bin, s.table, s.threads[t]);
    var h := s.threads[t].h;
    if !s.handles[h].inCache {
      ClaimedKept(s, s', t);
    } else if s.handles[h].refs == 0 {
      ClaimedNew(s, s', t, h);
    } else {
      ClaimedBusy(s, s', t, h);
    }
    LockedKeeps(s, s', t);
  }

  lemma EraseIs(s: State, t: ThreadId)
    requires Enabled(s, Erase(t))
    ensures t in s.threads && s.threads[t].Erasing?
    ensures Do(s, Erase(t)) ==
            (var id := s.threads[t].id;
             if id in s.table then Go(s, t, Unsetting(s.table[id], Unlocking)).(table := s.table - {id})
             else Go(s, t, Unlocking))
  {
  }

  lemma EraseKeeps(s: State, t: ThreadId)
    requires Inv(s) && Enabled(s, Erase(t))
    ensures Inv(Do(s, Erase(t)))
  {
    hide Counted, Answered, Claimed, Fits, Born, Charged, Locks, Holder, Do, Enabled;
    EraseIs(s, t);
    var s' := Do(s, Erase(t));
    HolderFits(s, t);
    var pc := s.threads[t];
    if pc.id in s.table {
      FitsErase(s.handles, s.bin, s.table, pc, pc.id, Unlocking);
    } else {
      FitsNothingToErase(s.handles, s.bin, s.table, pc, pc.id, Unlocking);
    }
    ClaimedKept(s, s', t);
    LockedKeeps(s, s', t);
  }

  lemma ClearKeeps(s: State, t: ThreadId)
    requires Inv(s) && Enabled(s, Clear(t))
    ensures Inv(Do(s, Clear(t)))
  {
    hide Counted, Answered, Claimed, Fits, Born, Charged, Locks, Holder;
    var s' := Do(s, Clear(t));
    HolderFits(s, t);
    FitsClear(s.handles, s.bin, s.table);
    ClaimedKept(s, s', t);
    LockedKeeps(s, s', t);
  }

  lemma SweepKeeps(s: State, t: ThreadId)
    requires Inv(s) && Enabled(s, Sweep(t))
    ensures Inv(Do(s, Sweep(t)))
  {
    hide Counted, Answered, Claimed, Fits, Born, Charged, Locks, Holder;
    var s' := Do(s, Sweep(t));
    HolderFits(s, t);
    FitsSweep(s.handles, s.bin, s.table, s.threads[t].i);
    ClaimedKept(s, s', t);
    LockedKeeps(s, s', t);
  }

  lemma ReplaceIs(s: State, t: ThreadId)
    requires Enabled(s, Replace(t))
    ensures t in s.threads && s.threads[t].Stored?
    ensures Do(s, Replace(t)) ==
            (var pc := s.threads[t];
             if pc.ins.id in s.table then
               Go(s, t, Unsetting(s.table[pc.ins.id], Placing(pc.ins, pc.h))).(table := s.table - {pc.ins.id})
             else Go(s, t, Placing(pc.ins, pc.h)))
  {
  }

  lemma ReplaceKeeps(s: State, t: ThreadId)
    requires Inv(s) && Enabled(s, Replace(t))
    ensures Inv(Do(s, Replace(t)))
  {
    hide Counted, Answered, Claimed, Fits, Born, Charged, Locks, Holder, Do, Enabled;
    ReplaceIs(s, t);
    var s' := Do(s, Replace(t));
    HolderFits(s, t);
    var pc := s.threads[t];
    if pc.ins.id in s.table {
      FitsErase(s.handles, s.bin, s.table, pc, pc.ins.id, Placing(pc.ins, pc.h));
    } else {
      FitsNothingToErase(s.handles, s.bin, s.table, pc, pc.ins.id, Placing(pc.ins, pc.h));
    }
    ClaimedKept(s, s', t);
    LockedKeeps(s, s', t);
  }

  lemma PlaceKeeps(s: State, t: ThreadId)
    requires Inv(s) && Enabled(s, Place(t))
    ensures Inv(Do(s, Place(t)))
  {
    hide Counted, Answered, Claimed, Fits, Born, Charged, Locks, Holder;
    var s' := Do(s, Place(t));
    HolderFits(s, t);
    FitsPlace(s.handles, s.bin, s.table, s.threads[t]);
    ClaimedKept(s, s', t);
    LockedKeeps(s, s', t);
  }

  // ---- recycling a handle and using it again -------------------------------

  lemma SumMinus(handles: seq<Handle>, out: set<HandleId>, h: HandleId, n: nat)
    requires h < n <= |handles| && h !in out
    ensures Sum(handles, out + {h}, n) == Sum(handles, out, n) - handles[h].total
  {
    if n - 1 == h {
      SumIgnores(handles, out, h, n - 1);
    } else {
      SumMinus(handles, out, h, n - 1);
    }
  }

  lemma SumIgnores(handles: seq<Handle>, out: set<HandleId>, h: HandleId, n: nat)
    requires n <= h && n <= |handles|
    ensures Sum(handles, out + {h}, n) == Sum(handles, out, n)
  {
  }

  lemma NobodyHolds(s: State, h: HandleId)
    requires Counted(s) && h < |s.handles| && s.handles[h].refs == 0
    ensures forall r :: r in s.held ==> s.held[r] != h
  {
    forall r | r in s.held ensures s.held[r] != h {
      HeldIsCounted(s, r);
    }
  }

  /** What a thread knows of the handle it claims. */
  lemma ClaimIs(s: State, t: ThreadId)
    requires Claimed(s) && t in s.threads && Claim(s.threads[t]).Some?
    ensures var h := Claim(s.threads[t]).value;
            h < |s.handles| && h !in s.bin && !s.handles[h].inCache && s.handles[h].refs == 0
  {
  }

  /** The claimed handle h goes into the bin. */
  lemma ClaimedBinned(s: State, s': State, t: ThreadId, h: HandleId)
    requires Claimed(s) && t in s.threads && Moved(s, s', t) && SameFlags(s, s') && s'.bin == s.bin + {h}
    requires Claim(s.threads[t]) == Some(h) && Claim(s'.threads[t]) == None
    ensures Claimed(s')
  {
    hide Claim;
    forall g | 0 <= g < |s'.handles| && g !in s'.bin && !InUse(s'.handles[g])
      ensures exists u :: u in s'.threads && Claim(s'.threads[u]) == Some(g)
    {
      var u :| u in s.threads && Claim(s.threads[u]) == Some(g);
      assert u in s'.threads && Claim(s'.threads[u]) == Some(g);
    }
  }

  lemma RecycleCharged(s: State, t: ThreadId)
    requires Inv(s) && Enabled(s, Recycle(t))
    ensures Charged(Do(s, Recycle(t)))
  {
    hide Counted, Answered, Claimed, Fits, Born;
    var s' := Do(s, Recycle(t));
    var h := s.threads[t].h;
    ClaimIs(s, t);
    HolderFits(s, t);
    FitsRecycle(s.handles, s.bin, s.table, s.threads[t]);
    assert Uncounted(s') == Uncounted(s) + {h};
    SumMinus(s.handles, Uncounted(s), h, |s.handles|);
    SumSame(s.handles, s'.handles, Uncounted(s'), |s.handles|);
  }

  lemma RecycleBorn(s: State, t: ThreadId)
    requires Inv(s) && Enabled(s, Recycle(t))
    ensures Born(Do(s, Recycle(t)))
  {
    hide Counted, Answered, Claimed, Fits, Charged;
    ClaimIs(s, t);
  }

  /** A handle that nobody holds may get another key or birth. */
  lemma AnsweredRenamed(s: State, s': State, t: ThreadId, h: HandleId)
    requires Answered(s) && Moved(s, s', t) && s'.held == s.held && s'.answers == s.answers
    requires RefOf(s'.threads[t]) == None
    requires |s'.handles| >= |s.handles| && forall r :: r in s.held ==> s.held[r] != h && s.held[r] < |s.handles|
    requires forall g :: 0 <= g < |s.handles| && g != h ==> s'.handles[g] == s.handles[g]
    ensures Answered(s')
  {
    hide RefOf;
    IdleHasNothing();
  }

  lemma RecycleKeeps(s: State, t: ThreadId)
    requires Inv(s) && Enabled(s, Recycle(t))
    ensures Inv(Do(s, Recycle(t)))
  {
    hide Counted, Answered, Claimed, Fits, Born, Charged;
    var s' := Do(s, Recycle(t));
    var h := s.threads[t].h;
    ClaimIs(s, t);
    NobodyHolds(s, h);
    LocksKept(s, s', t);
    CountedKept(s, s');
    AnsweredRenamed(s, s', t, h);
    ClaimedBinned(s, s', t, h);
    HolderFits(s, t);
    FitsRecycle(s.handles, s.bin, s.table, s.threads[t]);
    RecycleBorn(s, t);
    RecycleCharged(s, t);
  }

  // ---- insertion -----------------------------------------------------------

  lemma BinIs(s: State, h: HandleId)
    requires Claimed(s) && h in s.bin
    ensures h < |s.handles| && !s.handles[h].inCache && s.handles[h].refs == 0
  {
  }

  lemma GrabBorn(s: State, t: ThreadId, h: HandleId)
    requires Inv(s) && Enabled(s, Grab(t, h))
    ensures Born(Do(s, Grab(t, h)))
  {
    hide Counted, Answered, Claimed, Fits, Charged;
  }

  lemma GrabCharged(s: State, t: ThreadId, h: HandleId)
    requires Inv(s) && Enabled(s, Grab(t, h))
    ensures Charged(Do(s, Grab(t, h)))
  {
    hide Counted, Answered, Claimed, Fits, Born;
    var s' := Do(s, Grab(t, h));
    SumSame(s.handles, s'.handles, Uncounted(s'), |s.handles|);
    if h < |s.handles| {
      assert Uncounted(s') == Uncounted(s);
    } else {
      assert Uncounted(s') == Uncounted(s) + {h};
      SumIgnores(s.handles, Uncounted(s), h, |s.handles|);
    }
  }

  lemma GrabCounted(s: State, t: ThreadId, h: HandleId)
    requires Inv(s) && Enabled(s, Grab(t, h))
    ensures Counted(Do(s, Grab(t, h)))
    ensures forall r :: r in s.held ==> s.held[r] != h && s.held[r] < |s.handles|
  {
    hide Answered, Claimed, Fits, Born, Charged;
    var s' := Do(s, Grab(t, h));
    if h < |s.handles| {
      BinIs(s, h);
      NobodyHolds(s, h);
    }
    forall g | 0 <= g < |s'.handles| ensures s'.handles[g].refs == |Holders(s', g)| {
      assert Holders(s', g) == if g < |s.handles| then Holders(s, g) else {};
    }
  }

  /** Thread t takes h out of the bin, or appends it. */
  lemma ClaimedTaken(s: State, s': State, t: ThreadId, h: HandleId)
    requires Claimed(s) && t in s.threads && Moved(s, s', t) && s'.bin == s.bin - {h}
    requires h in s.bin || h == |s.handles|
    requires |s'.handles| == if h < |s.handles| then |s.handles| else |s.handles| + 1
    requires forall g :: 0 <= g < |s.handles| && g != h ==> s'.handles[g] == s.handles[g]
    requires h < |s'.handles| && !s'.handles[h].inCache && s'.handles[h].refs == 0
    requires Claim(s.threads[t]) == None && Claim(s'.threads[t]) == Some(h)
    ensures Claimed(s')
  {
    hide Claim;
    forall g | g in s'.bin ensures g < |s'.handles| && !s'.handles[g].inCache && s'.handles[g].refs == 0 {
      assert g in s.bin && g != h;
    }
    forall u | u in s'.threads && Claim(s'.threads[u]).Some?
      ensures var g := Claim(s'.threads[u]).value;
              g < |s'.handles| && g !in s'.bin && !s'.handles[g].inCache && s'.handles[g].refs == 0 && (u != t ==> g != h)
    {
      if u != t {
        assert u in s.threads && s'.threads[u] == s.threads[u];
      }
    }
    forall g | 0 <= g < |s'.handles| && g !in s'.bin && !InUse(s'.handles[g])
      ensures exists u :: u in s'.threads && Claim(s'.threads[u]) == Some(g)
    {
      if g == h {
        assert t in s'.threads && Claim(s'.threads[t]) == Some(g);
      } else {
        var u :| u in s.threads && Claim(s.threads[u]) == Some(g);
        assert u in s'.threads && Claim(s'.threads[u]) == Some(g);
      }
    }
  }

  lemma GrabKeeps(s: State, t: ThreadId, h: HandleId)
    requires Inv(s) && Enabled(s, Grab(t, h))
    ensures Inv(Do(s, Grab(t, h)))
  {
    hide Counted, Answered, Claimed, Fits, Born, Charged;
    var s' := Do(s, Grab(t, h));
    LocksKept(s, s', t);
    GrabCounted(s, t, h);
    AnsweredRenamed(s, s', t, h);
    ClaimedTaken(s, s', t, h);
    HolderFits(s, t);
    if h in s.bin { BinIs(s, h); }
    FitsGrab(s.handles, s.bin, s.table, s.threads[t], h, s'.handles[h]);
    GrabBorn(s, t, h);
    GrabCharged(s, t, h);
  }

  /** A claimed handle comes into use. */
  lemma ClaimedUsed(s: State, s': State, t: ThreadId, h: HandleId)
    requires Claimed(s) && t in s.threads && Moved(s, s', t) && SameFlagsBut(s, s', h) && s'.bin == s.bin
    requires Claim(s.threads[t]) == Some(h) && Claim(s'.threads[t]) == None && InUse(s'.handles[h])
    ensures Claimed(s')
  {
    hide Claim;
    forall g | 0 <= g < |s'.handles| && g !in s'.bin && !InUse(s'.handles[g])
      ensures exists u :: u in s'.threads && Claim(s'.threads[u]) == Some(g)
    {
      var u :| u in s.threads && Claim(s.threads[u]) == Some(g);
      assert u in s'.threads && Claim(s'.threads[u]) == Some(g);
    }
  }

  /** An insertion hands a reference to its client. */
  lemma AnsweredInsert(s: State, s': State, t: ThreadId, r: RefId, h: HandleId)
    requires Answered(s) && Moved(s, s', t) && |s'.handles| == |s.handles| && h < |s.handles|
    requires forall g :: 0 <= g < |s.handles| ==> s'.handles[g].id == s.handles[g].id && s'.handles[g].birth == s.handles[g].birth
    requires RefOf(s'.threads[t]) == None && r !in s.held && r !in s.answers
    requires s'.held == s.held[r := h] && s'.answers == s.answers[r := (s.handles[h].id, s.handles[h].birth)]
    ensures Answered(s')
  {
    hide RefOf;
    IdleHasNothing();
  }

  lemma StoreIs(s: State, t: ThreadId, r: RefId)
    requires Enabled(s, Store(t, r))
    ensures t in s.threads && s.threads[t].Filled? && s.threads[t].h < |s.handles| && r !in s.held && r !in s.answers
    ensures Do(s, Store(t, r)) ==
            (var pc := s.threads[t];
             var x := s.handles[pc.h];
             var hold := pc.ins.hold;
             Go(Put(s, pc.h, x.(inCache := true, usage := false, refs := if hold then 1 else 0)), t, Stored(pc.ins, pc.h))
             .(held := if hold then s.held[r := pc.h] else s.held,
               answers := if hold then s.answers[r := (pc.ins.id, x.birth)] else s.answers))
  {
  }

  lemma StoreRefs(s: State, t: ThreadId, r: RefId)
    requires Inv(s) && Enabled(s, Store(t, r))
    ensures Counted(Do(s, Store(t, r))) && Answered(Do(s, Store(t, r)))
  {
    hide Counted, Answered, Claimed, Fits, Born, Charged, Holder, Do, Enabled;
    StoreIs(s, t, r);
    var s' := Do(s, Store(t, r));
    var pc := s.threads[t];
    ClaimIs(s, t);
    IncomingIs(s, t);
    if pc.ins.hold {
      CountedGain(s, s', r, pc.h);
      AnsweredInsert(s, s', t, r, pc.h);
    } else {
      CountedKept(s, s');
      AnsweredKept(s, s', t);
    }
  }

  lemma StoreKeeps(s: State, t: ThreadId, r: RefId)
    requires Inv(s) && Enabled(s, Store(t, r))
    ensures Inv(Do(s, Store(t, r)))
  {
    hide Counted, Answered, Claimed, Fits, Born, Charged, Do, Enabled;
    StoreIs(s, t, r);
    var s' := Do(s, Store(t, r));
    ClaimIs(s, t);
    LocksKept(s, s', t);
    StoreRefs(s, t, r);
    ClaimedUsed(s, s', t, s.threads[t].h);
    HolderFits(s, t);
    FitsStore(s.handles, s.bin, s.table, s.threads[t], s'.handles[s.threads[t].h]);
    BornKept(s, s');
    ChargedKept(s, s');
  }

  lemma IncomingIs(s: State, t: ThreadId)
    requires Locks(s) && Tabled(s) && t in s.threads && HasMutex(s.threads[t]) && Incoming(s.threads[t]).Some?
    ensures var h, ins := Incoming(s.threads[t]).value, Core(s.threads[t]).ins;
            h < |s.handles| && h !in s.bin && s.handles[h].id == ins.id && s.handles[h].total == ins.total
  {
  }

  lemma ChargeIs(s: State, t: ThreadId)
    requires Enabled(s, Charge(t))
    ensures t in s.threads && s.threads[t].Charging?
    ensures Do(s, Charge(t)) ==
            Go(s, t, Unlocking).(usage := s.usage + s.threads[t].ins.total)
  {
  }

  lemma ChargeKeeps(s: State, t: ThreadId)
    requires Inv(s) && Enabled(s, Charge(t))
    ensures Inv(Do(s, Charge(t)))
  {
    hide Counted, Answered, Claimed, Fits, Born, Do, Enabled;
    ChargeIs(s, t);
    var s' := Do(s, Charge(t));
    var h := s.threads[t].h;
    IncomingIs(s, t);
    LocksKept(s, s', t);
    CountedKept(s, s');
    AnsweredKept(s, s', t);
    ClaimedKept(s, s', t);
    HolderFits(s, t);
    FitsCharge(s.handles, s.bin, s.table, s.threads[t]);
    BornKept(s, s');
    assert Uncounted(s) == Uncounted(s') + {h};
    SumMinus(s.handles, Uncounted(s'), h, |s.handles|);
  }

  // ---- whole runs ----------------------------------------------------------

  lemma StepKeepsInv(s: State, step: Step)
    requires Inv(s) && Enabled(s, step)
    ensures Inv(Do(s, step))
  {
    hide Inv, Do;
    match step
    case Spawn(t) => SpawnKeeps(s, t);
    case Find(t, id) => FindKeeps(s, t, id);
    case Ref(t, r) => RefKeeps(s, t, r);
    case Compare(t) => CompareKeeps(s, t);
    case Again(t, r, r') => AgainKeeps(s, t, r, r');
    case Release(t, r, force) => ReleaseKeeps(s, t, r, force);
    case Mark(t) => MarkKeeps(s, t);
    case Drop(t) => DropKeeps(s, t);
    case Read(t) => ReadKeeps(s, t);
    case Call(t, op) => CallKeeps(s, t, op);
    case Lock(t) => LockKeeps(s, t);
    case TryEvict(t, h) => TryEvictKeeps(s, t, h);
    case EraseEvicted(t) => EraseEvictedKeeps(s, t);
    case StopEvicting(t) => StopEvictingKeeps(s, t);
    case Recycle(t) => RecycleKeeps(s, t);
    case Unset(t) => UnsetKeeps(s, t);
    case Erase(t) => EraseKeeps(s, t);
    case Clear(t) => ClearKeeps(s, t);
    case Sweep(t) => SweepKeeps(s, t);
    case Grab(t, h) => GrabKeeps(s, t, h);
    case Store(t, r) => StoreKeeps(s, t, r);
    case Replace(t) => ReplaceKeeps(s, t);
    case Place(t) => PlaceKeeps(s, t);
    case Charge(t) => ChargeKeeps(s, t);
    case Unlock(t) => UnlockKeeps(s, t);
  }

  ghost predicate Reachable(s: State, steps: seq<Step>)
    decreases |steps|
  {
    if steps == [] then s == Init()
    else
      var last := |steps| - 1;
      exists p :: Reachable(p, steps[..last]) && Enabled(p, steps[last]) && s == Do(p, steps[last])
  }

  lemma {:induction false} ReachableInv(s: State, steps: seq<Step>)
    requires Reachable(s, steps)
    ensures Inv(s)
    decreases |steps|
  {
    if steps != [] {
      var last := |steps| - 1;
      var p :| Reachable(p, steps[..last]) && Enabled(p, steps[last]) && s == Do(p, steps[last]);
      ReachableInv(p, steps[..last]);
      StepKeepsInv(p, steps[last]);
    }
  }

  /** A reference returned by Lookup, Insert or Ref leads, for as long as it is held,
      to a handle with exactly the key and hash asked for, and to one and the
      same insertion, which is not recycled meanwhile. */
  lemma AnswersAreExact(s: State, steps: seq<Step>, r: RefId)
    requires Reachable(s, steps) && r in s.answers
    ensures r in s.held && s.held[r] < |s.handles|
    ensures var x := s.handles[s.held[r]];
            x.id == s.answers[r].0 && x.birth == s.answers[r].1 && x.refs >= 1 && x.birth !in s.recycled
  {
    hide Locks, Fits, Charged;
    ReachableInv(s, steps);
    HeldIsCounted(s, r);
  }

  /** The assertions of RecycleHandle hold, the handle is not already in the bin,
      its insertion has not been recycled before, and no other thread is about
      to recycle it. */
  lemma RecycleIsSafe(s: State, steps: seq<Step>, t: ThreadId)
    requires Reachable(s, steps) && Enabled(s, Recycle(t))
    ensures var h := s.threads[t].h;
            && !s.handles[h].inCache && s.handles[h].refs == 0
            && h !in s.bin && s.handles[h].birth !in s.recycled
            && forall u :: u in s.threads && Claim(s.threads[u]) == Some(h) ==> u == t
  {
    hide Locks, Fits, Charged, Counted, Answered, Do, Reachable;
    ReachableInv(s, steps);
    assert Claim(s.threads[t]) == Some(s.threads[t].h);
    ClaimIs(s, t);
  }

  /** Each insertion is recycled at most once, and its handle is in the bin
      exactly when it has been. */
  lemma RecycledAtMostOnce(s: State, steps: seq<Step>)
    requires Reachable(s, steps)
    ensures forall i, j :: 0 <= i < j < |s.recycled| ==> s.recycled[i] != s.recycled[j]
    ensures forall h :: 0 <= h < |s.handles| ==> (h in s.bin <==> s.handles[h].birth in s.recycled)
    ensures forall h :: 0 <= h < |s.handles| && h in s.bin ==> !s.handles[h].inCache && s.handles[h].refs == 0
  {
    hide Locks, Fits, Charged, Counted, Answered;
    ReachableInv(s, steps);
  }

  /** No handle is lost: outside the bin it is in cache, or referenced, or one
      thread is about to recycle or to fill it. */
  lemma NothingIsLost(s: State, steps: seq<Step>, h: HandleId)
    requires Reachable(s, steps) && h < |s.handles| && h !in s.bin
    ensures s.handles[h].inCache || s.handles[h].refs > 0 || exists t :: t in s.threads && Claim(s.threads[t]) == Some(h)
  {
    hide Locks, Fits, Charged, Answered, Born;
    ReachableInv(s, steps);
  }

  /** The erase in TryEvict always finds its key. */
  lemma EvictedIsInTable(s: State, steps: seq<Step>, t: ThreadId)
    requires Reachable(s, steps) && Enabled(s, EraseEvicted(t))
    ensures var x := s.handles[s.threads[t].h]; x.id in s.table && s.table[x.id] == s.threads[t].h
  {
    hide Charged, Answered, Born, Counted, Claimed;
    ReachableInv(s, steps);
  }

  /** Whenever the mutex is free, the table leads exactly to the handles in
      cache, and usage_ is the total charge of the handles outside the bin. */
  lemma ExactWhenUnlocked(s: State, steps: seq<Step>)
    requires Reachable(s, steps) && s.mutex == None
    ensures forall h :: 0 <= h < |s.handles| ==>
              (s.handles[h].inCache <==> s.handles[h].id in s.table && s.table[s.handles[h].id] == h)
    ensures forall id :: id in s.table ==> s.table[id] < |s.handles| && s.handles[s.table[id]].id == id
    ensures s.usage == Sum(s.handles, s.bin, |s.handles|)
  {
    hide Answered, Born, Counted, Claimed, Locks;
    ReachableInv(s, steps);
    assert Uncounted(s) == s.bin;
  }
}
