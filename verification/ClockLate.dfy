/** The pinned usage of the CLOCK shard as the code keeps it (cache/clock_cache.cc): a
    thread that has taken the first reference to a handle, or given up the last one,
    reads the charge of the handle afterwards, when others may have moved on. */
module ClockLate {
  import opened ClockCache
  import opened ClockProof
  import opened ClockSteps
  import opened ClockSchedule
  import opened ClockPinned

  /** A thread has still to add or subtract the charge of handle h; `total` and `birth`
      are its charge and insertion when the flags changed. */
  datatype Debt = Debt(h: HandleId, total: nat, birth: nat, adds: bool)

  /** `pinned` is pinned_usage_; `drift` records what late reads have got wrong. */
  datatype Late = Late(s: State, pinned: int, debts: map<ThreadId, Debt>, drift: int)

  datatype Move =
    | Act(step: Step)
    | Settle(t: ThreadId)  // read the charge, and add or subtract it

  function Owes(s: State, step: Step): Option<Debt>
    requires Enabled(s, step)
  {
    match step
    case Ref(t, r) =>
      var h := s.threads[t].h;
      var x := s.handles[h];
      if x.inCache && x.refs == 0 then Some(Debt(h, x.total, x.birth, true)) else None
    case Drop(t) =>
      var h := s.held[s.threads[t].r];
      var x := s.handles[h];
      if x.refs == 1 then Some(Debt(h, x.total, x.birth, false)) else None
    case _ => None
  }

  /** A thread in debt settles before it goes on. */
  predicate Allowed(l: Late, move: Move) {
    match move
    case Act(step) => Enabled(l.s, step) && step.t !in l.debts
    case Settle(t) => t in l.debts && l.debts[t].h < |l.s.handles|
  }

  function Apply(l: Late, move: Move): Late
    requires Allowed(l, move)
  {
    match move
    case Act(step) =>
      var owes := Owes(l.s, step);
      Late(Do(l.s, step),
           l.pinned + (if step.Charge? then Delta(l.s, step) else 0),
           if owes.Some? then l.debts[step.t := owes.value] else l.debts,
           l.drift)
    case Settle(t) =>
      var d := l.debts[t];
      var total := l.s.handles[d.h].total;
      Late(l.s,
           if d.adds then l.pinned + total else l.pinned - total,
           l.debts - {t},
           if d.adds then l.drift + (total - d.total) else l.drift - (total - d.total))
  }

  // ---- sums over debts ---------------------------------------------------------------

  function Amount(d: Debt): int {
    if d.adds then d.total else -(d.total as int)
  }

  ghost function Owed(debts: map<ThreadId, Debt>): int
    decreases |debts|
  {
    if debts == map[] then 0
    else
      var t :| t in debts;
      Fewer(debts, t);
      Amount(debts[t]) + Owed(debts - {t})
  }

  lemma Fewer(debts: map<ThreadId, Debt>, t: ThreadId)
    requires t in debts
    ensures |debts - {t}| < |debts|
  {
    assert (debts - {t}).Keys == debts.Keys - {t};
    assert |debts| == |debts.Keys| && |debts - {t}| == |(debts - {t}).Keys|;
  }

  lemma {:induction false} OwedLess(debts: map<ThreadId, Debt>, t: ThreadId)
    requires t in debts
    ensures Owed(debts) == Amount(debts[t]) + Owed(debts - {t})
    decreases |debts|
  {
    var u :| u in debts && Owed(debts) == Amount(debts[u]) + Owed(debts - {u});
    if u != t {
      Fewer(debts, u);
      Fewer(debts, t);
      OwedLess(debts - {u}, t);
      OwedLess(debts - {t}, u);
      assert debts - {u} - {t} == debts - {t} - {u};
    }
  }

  lemma OwedMore(debts: map<ThreadId, Debt>, t: ThreadId, d: Debt)
    requires t !in debts
    ensures Owed(debts[t := d]) == Owed(debts) + Amount(d)
  {
    OwedLess(debts[t := d], t);
    assert debts[t := d] - {t} == debts;
  }

  // ---- the invariant -------------------------------------------------------------------

  /** A thread that has to add holds its reference, so the charge is still the same. One
      that has to subtract does not: the charge is the same as long as the handle has
      not been reused. */
  predicate DebtOk(s: State, t: ThreadId, d: Debt) {
    && t in s.threads && d.h < |s.handles|
    && if d.adds then
         && s.threads[t].Reffed? && s.threads[t].r in s.held && s.held[s.threads[t].r] == d.h
         && s.handles[d.h].total == d.total
       else
         s.handles[d.h].birth >= d.birth && (s.handles[d.h].birth == d.birth ==> s.handles[d.h].total == d.total)
  }

  ghost predicate Kept(l: Late) {
    && Inv(l.s)
    && l.pinned + Owed(l.debts) == Exact(l.s) + l.drift
    && forall t :: t in l.debts ==> DebtOk(l.s, t, l.debts[t])
  }

  /** Nobody but thread t can give up its reference. */
  lemma HeldStays(s: State, step: Step, t: ThreadId, r: RefId)
    requires Answered(s) && Enabled(s, step) && step.t != t
    requires t in s.threads && s.threads[t].Reffed? && s.threads[t].r == r && r in s.held
    ensures r in Do(s, step).held && Do(s, step).held[r] == s.held[r]
  {
    hide Do, Enabled;
    OthersStay(s, step, t);
    match step
    case Ref(u, r') => RefIs(s, u, r');
    case Again(u, r', r'') => AgainAdds(s, u, r', r'');
    case Mark(u) => MarkIs(s, u);
    case Drop(u) =>
      DropIs(s, u);
      assert RefOf(s.threads[u]) == Some(s.threads[u].r) && RefOf(s.threads[t]) == Some(r);
    case Store(u, r') => StoreIs(s, u, r');
    case _ =>
  }

  /** A handle keeps charge and insertion, or is taken from the bin for a new one. */
  lemma HandleStays(s: State, step: Step, h: HandleId)
    requires Born(s) && Enabled(s, step) && h < |s.handles|
    ensures h < |Do(s, step).handles|
    ensures var x, x' := s.handles[h], Do(s, step).handles[h];
            (x'.total == x.total && x'.birth == x.birth) || (h in s.bin && x'.birth > x.birth)
  {
    hide Do, Enabled;
    if step.Recycle? {
      RecycleRecords(s, step.t);
    } else if step.Grab? {
      GrabReuses(s, step.t, step.h);
    } else if Counts(step) {
      CountsLeave(s, step, h);
    } else if Moves(step) {
      MovesLeave(s, step, h);
    } else {
      OthersLeave(s, step);
    }
  }

  lemma DebtStays(s: State, step: Step, t: ThreadId, d: Debt)
    requires Inv(s) && Enabled(s, step) && step.t != t && DebtOk(s, t, d)
    ensures DebtOk(Do(s, step), t, d)
  {
    hide Do, Enabled, Locks, Counted, Answered, Tabled, Born, Charged;
    OthersStay(s, step, t);
    HandleStays(s, step, d.h);
    if d.adds {
      HeldStays(s, step, t, s.threads[t].r);
      HeldIsCounted(s, s.threads[t].r);
    }
  }

  /** A thread's own step leaves a debt that is in order. */
  lemma NewDebtOk(s: State, step: Step)
    requires Inv(s) && Enabled(s, step) && Owes(s, step).Some?
    ensures DebtOk(Do(s, step), step.t, Owes(s, step).value)
    ensures Delta(s, step) == Amount(Owes(s, step).value)
  {
    hide Do, Enabled, Locks, Counted, Answered, Claimed, Tabled, Born, Charged;
    if step.Ref? {
      RefIs(s, step.t, step.r);
    } else {
      DropIs(s, step.t);
    }
  }

  lemma NoDebt(s: State, step: Step)
    requires Enabled(s, step) && Owes(s, step).None?
    ensures !step.Charge? ==> Delta(s, step) == 0
  {
    hide Enabled;
  }

  lemma ActKeeps(l: Late, step: Step)
    requires Kept(l) && Allowed(l, Act(step))
    ensures Kept(Apply(l, Act(step)))
  {
    hide Do, Enabled, Inv, Exact, Delta, Owed, DebtOk, Owes;
    StepKeepsInv(l.s, step);
    StepChanges(l.s, step);
    forall t | t in l.debts ensures DebtOk(Do(l.s, step), t, l.debts[t]) {
      DebtStays(l.s, step, t, l.debts[t]);
    }
    if Owes(l.s, step).Some? {
      NewDebtOk(l.s, step);
      OwedMore(l.debts, step.t, Owes(l.s, step).value);
      ChargeOwesNothing(l.s, step);
    } else {
      NoDebt(l.s, step);
    }
  }

  lemma ChargeOwesNothing(s: State, step: Step)
    requires Enabled(s, step) && Owes(s, step).Some?
    ensures !step.Charge?
  {
  }

  lemma SettleKeeps(l: Late, t: ThreadId)
    requires Kept(l) && t in l.debts && Allowed(l, Settle(t))
    ensures Kept(Apply(l, Settle(t)))
  {
    hide Inv, Exact, Owed, DebtOk;
    OwedLess(l.debts, t);
  }

  ghost predicate Runs(moves: seq<Move>, l: Late)
    decreases |moves|
  {
    if moves == [] then l == Late(Init(), 0, map[], 0)
    else
      var last := |moves| - 1;
      exists p :: Allowed(p, moves[last]) && l == Apply(p, moves[last]) && Runs(moves[..last], p)
  }

  lemma {:induction false} RunsKeep(moves: seq<Move>, l: Late)
    requires Runs(moves, l)
    ensures Kept(l)
    decreases |moves|
  {
    hide Inv, Exact, Apply, Allowed, Kept;
    if moves == [] {
      StartIsKept();
    } else {
      var last := |moves| - 1;
      var p :| Allowed(p, moves[last]) && l == Apply(p, moves[last]) && Runs(moves[..last], p);
      RunsKeep(moves[..last], p);
      match moves[last]
      case Act(step) => ActKeeps(p, step);
      case Settle(t) => CanSettle(p, t); SettleKeeps(p, t);
    }
  }

  lemma CanSettle(l: Late, t: ThreadId)
    requires Allowed(l, Settle(t))
    ensures t in l.debts
  {
  }

  lemma StartIsKept()
    ensures Kept(Late(Init(), 0, map[], 0))
  {
    hide Inv, Exact;
    InitIsExact();
  }

  // ---- what the counter is worth -----------------------------------------------------------

  /** Under every interleaving, once nobody is in debt and the mutex is free, the
      counter is the charge of the handles with references if and only if the late
      reads have got nothing wrong on balance. */
  lemma PinnedIsExactIff(moves: seq<Move>, l: Late)
    requires Runs(moves, l) && l.debts == map[] && l.s.mutex == None
    ensures l.pinned == Pinned(l.s.handles) + l.drift
    ensures l.pinned == Pinned(l.s.handles) <==> l.drift == 0
  {
    hide Inv, Exact, Runs, DebtOk, Pinned;
    RunsKeep(moves, l);
    ExactWhenFree(l.s);
  }

  /** A late read is wrong by the difference between the charges of the insertion that
      was released and of the one that the handle stands for by then. So it is right
      if the handle has not been reused, and always right for a new reference. */
  lemma SettlingDrifts(moves: seq<Move>, l: Late, t: ThreadId)
    requires Runs(moves, l) && t in l.debts
    ensures Allowed(l, Settle(t))
    ensures var d := l.debts[t];
            var x, l' := l.s.handles[d.h], Apply(l, Settle(t));
            && l'.drift - l.drift == (if d.adds then 0 else d.total - x.total)
            && (d.adds || x.birth == d.birth ==> l'.drift == l.drift)
            && x.birth >= if d.adds then 0 else d.birth
  {
    hide Inv, Exact, Runs, Owed;
    RunsKeep(moves, l);
    assert DebtOk(l.s, t, l.debts[t]);
  }

  // ---- a schedule in which it goes wrong ------------------------------------------------------

  lemma RunOn(moves: seq<Move>, l: Late, move: Move) returns (moves': seq<Move>, l': Late)
    requires Runs(moves, l) && Allowed(l, move)
    ensures Runs(moves', l') && l' == Apply(l, move)
  {
    hide Allowed, Apply;
    moves', l' := moves + [move], Apply(l, move);
    assert moves'[..|moves|] == moves;
  }

  /** Steps that count no references leave the debts of others, and the drift, alone. */
  lemma {:induction false} RunPlay(moves: seq<Move>, l: Late, steps: seq<Step>, s: State, rules: Rules) returns (moves': seq<Move>, l': Late)
    requires Runs(moves, l) && Plays(steps, s, rules) && rules.start == l.s && !rules.counting
    requires forall t :: t in rules.movers ==> t !in l.debts
    ensures Runs(moves', l') && l'.s == s && l'.debts == l.debts && l'.drift == l.drift
    decreases |steps|
  {
    hide Do, Enabled, Runs;
    if steps == [] {
      moves', l' := moves, l;
    } else {
      var last := |steps| - 1;
      var p :| Leads(rules.start, steps[..last], p) && Enabled(p, steps[last]) && s == Do(p, steps[last]);
      assert Permits(rules, steps[last]);
      assert forall i :: 0 <= i < last ==> steps[..last][i] == steps[i];
      moves', l' := RunPlay(moves, l, steps[..last], p, rules);
      moves', l' := RunOn(moves', l', Act(steps[last]));
    }
  }

  /** Thread 2 inserts key a, and thread 1 finds it. */
  lemma PlayFound(a: CacheKey, rules: Rules) returns (steps: seq<Step>, s: State)
    requires rules == Rules(Init(), {1, 2}, {}, false)
    ensures Plays(steps, s, rules) && s.mutex == None && s.threads == map[1 := Found(a, 0), 2 := Idle]
    ensures s.handles == [Handle(a, 1, 0, true, false, 0)] && s.table == map[a := 0] && s.held == map[] && s.answers == map[] && s.bin == {}
  {
    hide Plays;
    steps, s := PlayStart(rules);
    steps, s := PlayInsert(steps, s, rules, 2, Insertion(a, 1, false), 0, RefId(0));
    steps, s := PlayOn(steps, s, rules, Find(1, a));
  }

  /** Thread 1 gets its reference and sets out to release it. */
  lemma PlayRelease(s: State, r: RefId, rules: Rules) returns (steps: seq<Step>, s': State)
    requires rules == Rules(s, {1}, {}, false)
    requires 1 in s.threads && s.threads[1].Reffed? && s.threads[1].r == r && r in s.held && s.held[r] < |s.handles|
    requires s.handles[s.held[r]].id == s.threads[1].id
    ensures Plays(steps, s', rules) && s'.mutex == s.mutex && s'.threads == s.threads[1 := Dropping(r, false)]
    ensures s'.handles == s.handles[s.held[r] := s.handles[s.held[r]].(usage := true)]
    ensures s'.table == s.table && s'.held == s.held && s'.answers == s.answers - {r} && s'.bin == s.bin
  {
    hide Plays, Do, Enabled;
    steps, s' := [], s;
    NoStepsPlay(rules);
    CompareIs(s', 1);
    steps, s' := PlayOn(steps, s', rules, Compare(1));
    ReleaseIs(s', 1, r);
    steps, s' := PlayOn(steps, s', rules, Release(1, r, false));
    MarkCan(s', 1);
    MarkIs(s', 1);
    steps, s' := PlayOn(steps, s', rules, Mark(1));
    assert s'.answers == s.answers - {r};
  }

  lemma CompareIs(s: State, t: ThreadId)
    requires t in s.threads && s.threads[t].Reffed? && s.threads[t].r in s.held && s.held[s.threads[t].r] < |s.handles|
    requires s.handles[s.held[s.threads[t].r]].id == s.threads[t].id
    ensures Enabled(s, Compare(t))
    ensures var pc := s.threads[t];
            Do(s, Compare(t)) == Go(s, t, Idle).(answers := s.answers[pc.r := (pc.id, s.handles[s.held[pc.r]].birth)])
  {
  }

  lemma ReleaseIs(s: State, t: ThreadId, r: RefId)
    requires t in s.threads && s.threads[t] == Idle && r in s.answers
    ensures Enabled(s, Release(t, r, false))
    ensures Do(s, Release(t, r, false)) == Go(s, t, Marking(r, false)).(answers := s.answers - {r})
  {
  }

  lemma MarkCan(s: State, t: ThreadId)
    requires t in s.threads && s.threads[t].Marking? && s.threads[t].r in s.held && s.held[s.threads[t].r] < |s.handles|
    ensures Enabled(s, Mark(t))
  {
  }

  lemma NoStepsPlay(rules: Rules)
    ensures Plays([], rules.start, rules)
  {
  }

  /** Thread 2 erases the entry of key a in handle 0 and puts key b there. */
  lemma PlayReuse(s: State, a: CacheKey, b: CacheKey, rules: Rules) returns (steps: seq<Step>, s': State)
    requires rules == Rules(s, {2}, {a}, false) && a != b
    requires 2 in s.threads && s.threads[2] == Idle && s.mutex == None && s.table == map[a := 0]
    requires |s.handles| == 1 && s.handles[0].inCache && s.handles[0].refs == 0
    requires s.held == map[] && s.answers == map[]
    ensures Plays(steps, s', rules) && s'.mutex == None && s'.threads == s.threads && s'.held == map[]
    ensures |s'.handles| == 1 && s'.handles[0].total == 5 && s'.handles[0].refs == 0
  {
    hide Plays;
    NoStepsPlay(rules);
    steps, s' := PlayErase([], s, rules, 2, a);
    steps, s' := PlayInsert(steps, s', rules, 2, Insertion(b, 5, false), 0, RefId(0));
  }

  lemma RefCan(s: State, r: RefId)
    requires 1 in s.threads && s.threads[1].Found? && s.threads[1].h < |s.handles| && r !in s.held && r !in s.answers
    ensures Enabled(s, Ref(1, r))
  {
  }

  lemma DropCan(s: State)
    requires 1 in s.threads && s.threads[1].Dropping? && s.threads[1].r in s.held && s.held[s.threads[1].r] < |s.handles|
    ensures Enabled(s, Drop(1))
  {
  }

  /** Thread 1 takes the first reference to the entry of key a and gives it up again;
      it has still to subtract the charge. */
  lemma InDebt(a: CacheKey) returns (moves: seq<Move>, l: Late)
    ensures Runs(moves, l) && l.debts == map[1 := Debt(0, 1, 0, false)] && l.drift == 0
    ensures l.s.mutex == None && l.s.threads == map[1 := Idle, 2 := Idle] && l.s.table == map[a := 0]
    ensures l.s.held == map[] && l.s.answers == map[]
    ensures |l.s.handles| == 1 && l.s.handles[0].inCache && l.s.handles[0].refs == 0
  {
    hide Plays, Do, Enabled, Runs;
    var r := RefId(0);
    StartRuns();
    var steps, s := PlayFound(a, Rules(Init(), {1, 2}, {}, false));
    moves, l := RunPlay([], Late(Init(), 0, map[], 0), steps, s, Rules(Init(), {1, 2}, {}, false));
    RefCan(l.s, r);
    RefIs(l.s, 1, r);
    moves, l := RunOn(moves, l, Act(Ref(1, r)));
    moves, l := RunOn(moves, l, Settle(1));
    steps, s := PlayRelease(l.s, r, Rules(l.s, {1}, {}, false));
    moves, l := RunPlay(moves, l, steps, s, Rules(l.s, {1}, {}, false));
    DropCan(l.s);
    DropIs(l.s, 1);
    moves, l := RunOn(moves, l, Act(Drop(1)));
    assert l.s.held == map[] && l.s.answers == map[];
  }

  lemma StartRuns()
    ensures Runs([], Late(Init(), 0, map[], 0))
  {
  }

  /** Before thread 1 reads the charge of the entry that it has released, thread 2 erases
      that entry and reuses the handle for one of charge 5. In the end nobody holds
      anything, and the counter stands at 4 below nothing. */
  lemma PinnedUsageIsLost(a: CacheKey, b: CacheKey) returns (moves: seq<Move>, l: Late)
    requires a != b
    ensures Runs(moves, l) && l.debts == map[] && l.s.mutex == None && l.s.threads == map[1 := Idle, 2 := Idle]
    ensures l.s.held == map[] && Pinned(l.s.handles) == 0 && l.pinned == -4
  {
    hide Plays, Do, Enabled, Runs, Exact;
    moves, l := InDebt(a);
    var steps, s := PlayReuse(l.s, a, b, Rules(l.s, {2}, {a}, false));
    moves, l := RunPlay(moves, l, steps, s, Rules(l.s, {2}, {a}, false));
    moves, l := RunOn(moves, l, Settle(1));
    assert l.s.handles[..0] == [] && l.debts == map[];
    PinnedIsExactIff(moves, l);
  }
}
