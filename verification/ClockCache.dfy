/** The CLOCK cache shard (cache/clock_cache.cc) as a state machine: lock-free
    Ref and Unref on a handle's flags, against insert, erase and evict under the
    mutex. Each step is one access to shared state; steps of different threads
    interleave arbitrarily. */
module ClockCache {

  datatype Option<+T> = None | Some(value: T)

  type ThreadId = nat
  type HandleId = nat  // position in list_

  /** A reference that somebody holds on a handle. */
  datatype RefId = RefId(n: nat)

  datatype CacheKey = CacheKey(key: string, hash: nat)

  /** `id` and `total` are the key and the total charge of the insertion that the
      handle represents, `birth` the number of that insertion. The last three
      fields are the contents of the flags word. */
  datatype Handle = Handle(id: CacheKey, total: nat, birth: nat, inCache: bool, usage: bool, refs: int)

  datatype Insertion = Insertion(id: CacheKey, total: nat, hold: bool)

  /** What a thread does next. From Evicting on it holds the mutex. */
  datatype Pc =
    | Idle
    // Lookup
    | Found(id: CacheKey, h: HandleId)  // Ref: compare and swap the flags
    | Reffed(id: CacheKey, r: RefId)  // compare the key
    // Unref, Release
    | Marking(r: RefId, force: bool)  // set the usage bit
    | Dropping(r: RefId, force: bool)  // subtract one reference
    | MustRecycle(h: HandleId)  // lock
    | ReadKey(h: HandleId)  // read the key of a handle no longer held
    | MustErase(id: CacheKey)  // lock
    | MustInsert(ins: Insertion)  // lock
    | MustSweep  // lock
    | MustResize  // lock
    // under the mutex
    | Evicting(goal: Option<Insertion>)  // try to evict, or go on
    | Evicted(h: HandleId, goal: Option<Insertion>)  // erase the key from the table
    | Recycling(h: HandleId, next: Pc)  // RecycleHandle
    | Unsetting(h: HandleId, next: Pc)  // clear the in-cache bit
    | Erasing(id: CacheKey)  // find the key in the table and erase it
    | Clearing  // clear the table
    | Sweeping(i: nat)  // unset the next handle
    | Filled(ins: Insertion, h: HandleId)  // store the flags
    | Stored(ins: Insertion, h: HandleId)  // find an entry with the same key
    | Placing(ins: Insertion, h: HandleId)  // insert into the table
    | Charging(ins: Insertion, h: HandleId)  // add to usage_
    | Unlocking

  datatype State = State(
    handles: seq<Handle>,  // list_
    bin: set<HandleId>,  // recycle_
    table: map<CacheKey, HandleId>,
    usage: int,
    mutex: Option<ThreadId>,
    threads: map<ThreadId, Pc>,
    held: map<RefId, HandleId>,  // outstanding references
    answers: map<RefId, (CacheKey, nat)>,  // references returned to clients: the key asked for, the insertion found
    inserted: nat,  // number of insertions so far
    recycled: seq<nat>)  // insertions recycled so far

  datatype Step =
    | Spawn(t: ThreadId)
    | Find(t: ThreadId, id: CacheKey)
    | Ref(t: ThreadId, r: RefId)
    | Compare(t: ThreadId)
    | Again(t: ThreadId, r: RefId, r': RefId)  // a client asks for one more reference
    | Release(t: ThreadId, r: RefId, force: bool)
    | Mark(t: ThreadId)
    | Drop(t: ThreadId)
    | Read(t: ThreadId)
    | Call(t: ThreadId, op: Pc)  // start Erase, Insert, EraseUnRefEntries or SetCapacity
    | Lock(t: ThreadId)
    | TryEvict(t: ThreadId, h: HandleId)
    | EraseEvicted(t: ThreadId)
    | StopEvicting(t: ThreadId)
    | Recycle(t: ThreadId)
    | Unset(t: ThreadId)
    | Erase(t: ThreadId)
    | Clear(t: ThreadId)
    | Sweep(t: ThreadId)
    | Grab(t: ThreadId, h: HandleId)
    | Store(t: ThreadId, r: RefId)
    | Replace(t: ThreadId)
    | Place(t: ThreadId)
    | Charge(t: ThreadId)
    | Unlock(t: ThreadId)

  function Init(): State {
    State([], {}, map[], 0, None, map[], map[], map[], 0, [])
  }

  predicate Starts(op: Pc) {
    op.MustErase? || op.MustInsert? || op.MustSweep? || op.MustResize?
  }

  predicate NeedsLock(pc: Pc) {
    pc.MustRecycle? || Starts(pc)
  }

  /** What a thread does once it has the mutex. */
  function AfterLock(pc: Pc): Pc
    requires NeedsLock(pc)
  {
    match pc
    case MustRecycle(h) => Recycling(h, Unlocking)
    case MustErase(id) => Erasing(id)
    case MustInsert(ins) => Evicting(Some(ins))
    case MustSweep => Clearing
    case MustResize => Evicting(None)
  }

  predicate Enabled(s: State, step: Step) {
    if step.Spawn? then step.t !in s.threads
    else if step.t !in s.threads then false
    else
      var pc := s.threads[step.t];
      match step
      case Find(t, id) => pc == Idle && id in s.table
      case Ref(t, r) => pc.Found? && pc.h < |s.handles| && r !in s.held && r !in s.answers
      case Compare(t) => pc.Reffed? && pc.r in s.held && s.held[pc.r] < |s.handles|
      case Again(t, r, r') => pc == Idle && r in s.answers && r in s.held && s.held[r] < |s.handles| && r' !in s.held && r' !in s.answers
      case Release(t, r, force) => pc == Idle && r in s.answers
      case Mark(t) => pc.Marking? && pc.r in s.held && s.held[pc.r] < |s.handles|
      case Drop(t) => pc.Dropping? && pc.r in s.held && s.held[pc.r] < |s.handles|
      case Read(t) => pc.ReadKey? && pc.h < |s.handles|
      case Call(t, op) => pc == Idle && Starts(op)
      case Lock(t) => NeedsLock(pc) && s.mutex.None?
      case TryEvict(t, h) => pc.Evicting? && h < |s.handles|
      case EraseEvicted(t) => pc.Evicted? && pc.h < |s.handles|
      case StopEvicting(t) => pc.Evicting?
      case Recycle(t) => pc.Recycling? && pc.h < |s.handles|
      case Unset(t) => pc.Unsetting? && pc.h < |s.handles|
      case Erase(t) => pc.Erasing?
      case Clear(t) => pc.Clearing?
      case Sweep(t) => pc.Sweeping?
      case Grab(t, h) => pc.Evicting? && pc.goal.Some? && (if s.bin == {} then h == |s.handles| else h in s.bin && h < |s.handles|)
      case Store(t, r) => pc.Filled? && pc.h < |s.handles| && r !in s.held && r !in s.answers
      case Replace(t) => pc.Stored?
      case Place(t) => pc.Placing?
      case Charge(t) => pc.Charging?
      case Unlock(t) => pc.Unlocking?
  }

  // ---- the effect of a step ------------------------------------------------

  function Go(s: State, t: ThreadId, pc: Pc): State {
    s.(threads := s.threads[t := pc])
  }

  function Put(s: State, h: HandleId, x: Handle): State
    requires h < |s.handles|
  {
    s.(handles := s.handles[h := x])
  }

  function Do(s: State, step: Step): State
    requires Enabled(s, step)
  {
    match step
    case Spawn(t) => Go(s, t, Idle)
    case Find(t, id) => Go(s, t, Found(id, s.table[id]))
    case Ref(t, r) =>
      var pc := s.threads[t];
      var x := s.handles[pc.h];
      if x.inCache then
        Go(Put(s, pc.h, x.(refs := x.refs + 1)), t, Reffed(pc.id, r)).(held := s.held[r := pc.h])
      else
        Go(s, t, Idle)
    case Compare(t) =>
      var pc := s.threads[t];
      var x := s.handles[s.held[pc.r]];
      if x.id == pc.id then
        Go(s, t, Idle).(answers := s.answers[pc.r := (pc.id, x.birth)])
      else
        Go(s, t, Dropping(pc.r, false))
    case Again(t, r, r') =>
      var h := s.held[r];
      var x := s.handles[h];
      if x.inCache then
        Go(Put(s, h, x.(refs := x.refs + 1)), t, Idle).(held := s.held[r' := h], answers := s.answers[r' := s.answers[r]])
      else
        Go(s, t, Idle)
    case Release(t, r, force) => Go(s, t, Marking(r, force)).(answers := s.answers - {r})
    case Mark(t) =>
      var pc := s.threads[t];
      var h := s.held[pc.r];
      Go(Put(s, h, s.handles[h].(usage := true)), t, Dropping(pc.r, pc.force))
    case Drop(t) =>
      var pc := s.threads[t];
      var h := s.held[pc.r];
      var x := s.handles[h];
      Go(Put(s, h, x.(refs := x.refs - 1)), t,
         if x.refs == 1 && !x.inCache then MustRecycle(h) else if pc.force then ReadKey(h) else Idle)
      .(held := s.held - {pc.r})
    case Read(t) => Go(s, t, MustErase(s.handles[s.threads[t].h].id))
    case Call(t, op) => Go(s, t, op)
    case Lock(t) => Go(s, t, AfterLock(s.threads[t])).(mutex := Some(t))
    case TryEvict(t, h) =>
      var x := s.handles[h];
      if x.inCache && !x.usage && x.refs == 0 then
        Go(Put(s, h, x.(inCache := false)), t, Evicted(h, s.threads[t].goal))
      else
        Put(s, h, x.(usage := false))
    case EraseEvicted(t) =>
      var pc := s.threads[t];
      Go(s, t, Recycling(pc.h, Evicting(pc.goal))).(table := s.table - {s.handles[pc.h].id})
    case StopEvicting(t) => Go(s, t, Unlocking)
    case Recycle(t) =>
      var pc := s.threads[t];
      var x := s.handles[pc.h];
      Go(Put(s, pc.h, x.(id := x.id.(key := ""))), t, pc.next)
      .(bin := s.bin + {pc.h}, usage := s.usage - x.total, recycled := s.recycled + [x.birth])
    case Unset(t) =>
      var pc := s.threads[t];
      var x := s.handles[pc.h];
      Go(Put(s, pc.h, x.(inCache := false)), t,
         if x.inCache && x.refs == 0 then Recycling(pc.h, pc.next) else pc.next)
    case Erase(t) =>
      var id := s.threads[t].id;
      if id in s.table then
        Go(s, t, Unsetting(s.table[id], Unlocking)).(table := s.table - {id})
      else
        Go(s, t, Unlocking)
    case Clear(t) => Go(s, t, Sweeping(0)).(table := map[])
    case Sweep(t) =>
      var i := s.threads[t].i;
      Go(s, t, if i < |s.handles| then Unsetting(i, Sweeping(i + 1)) else Unlocking)
    case Grab(t, h) =>
      var ins := s.threads[t].goal.value;
      var usage := h < |s.handles| && s.handles[h].usage;
      var x := Handle(ins.id, ins.total, s.inserted, false, usage, 0);
      Go(s, t, Filled(ins, h))
      .(handles := if h < |s.handles| then s.handles[h := x] else s.handles + [x],
        bin := s.bin - {h}, inserted := s.inserted + 1)
    case Store(t, r) =>
      var pc := s.threads[t];
      var x := s.handles[pc.h];
      var hold := pc.ins.hold;
      Go(Put(s, pc.h, x.(inCache := true, usage := false, refs := if hold then 1 else 0)), t, Stored(pc.ins, pc.h))
      .(held := if hold then s.held[r := pc.h] else s.held,
        answers := if hold then s.answers[r := (pc.ins.id, x.birth)] else s.answers)
    case Replace(t) =>
      var pc := s.threads[t];
      if pc.ins.id in s.table then
        Go(s, t, Unsetting(s.table[pc.ins.id], Placing(pc.ins, pc.h))).(table := s.table - {pc.ins.id})
      else
        Go(s, t, Placing(pc.ins, pc.h))
    case Place(t) =>
      var pc := s.threads[t];
      Go(s, t, Charging(pc.ins, pc.h)).(table := s.table[pc.ins.id := pc.h])
    case Charge(t) =>
      var pc := s.threads[t];
      Go(s, t, Unlocking).(usage := s.usage + pc.ins.total)
    case Unlock(t) => Go(s, t, Idle).(mutex := None)
  }
}
