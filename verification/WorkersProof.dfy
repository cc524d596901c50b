/** What holds in every state of the dispatcher and the workers, and what the
    shards have done when the workers end. */
module WorkersProof {
  import opened Workers

  // ---- what the queues should hold ---------------------------------------------

  /** The requests that command number i puts into queue q. */
  function RequestsOf(cfg: Config, i: nat, q: nat): seq<Request>
    requires cfg.Valid() && i < |cfg.trace|
  {
    var c := cfg.trace[i];
    if c.cmd == 'R' || IsWrite(c) then
      if c.key % cfg.queues == q then [Request(i, c.key, -1, IsWrite(c))] else []
    else if c.cmd == 'S' then [Request(i, c.key, c.scanSize, false)]
    else []
  }

  /** The requests of the first n commands for queue q. */
  function Routed(cfg: Config, n: nat, q: nat): seq<Request>
    requires cfg.Valid() && n <= |cfg.trace|
  {
    if n == 0 then [] else Routed(cfg, n - 1, q) + RequestsOf(cfg, n - 1, q)
  }

  /** What the dispatcher has published to queue q. */
  function Published(cfg: Config, d: Dispatcher, q: nat): seq<Request>
    requires cfg.Valid() && d.i <= |cfg.trace|
  {
    Routed(cfg, d.i, q) +
    if q >= d.j then [] else if d.i < |cfg.trace| then RequestsOf(cfg, d.i, q) else [Sentinel]
  }

  ghost predicate DispatcherOk(cfg: Config, d: Dispatcher)
    requires cfg.Valid()
  {
    && d.i <= |cfg.trace| && d.j <= cfg.queues
    && (d.j > 0 && d.i < |cfg.trace| ==> cfg.trace[d.i].cmd == 'S')
    && (d.filled ==> NextPush(cfg, d).To?)
  }

  /** The slots up to the tail are the published requests; one more may be filled. */
  ghost predicate QueueOk(cfg: Config, d: Dispatcher, q: nat, shard: Shard)
    requires cfg.Valid() && d.i <= |cfg.trace|
  {
    && shard.tail <= |shard.slots| <= shard.tail + 1
    && shard.slots[..shard.tail] == Published(cfg, d, q)
    && (if d.filled && NextPush(cfg, d).To? && NextPush(cfg, d).q == q then
          |shard.slots| == shard.tail + 1 && shard.slots[shard.tail] == NextPush(cfg, d).r
        else |shard.slots| == shard.tail)
  }

  // ---- what a worker has done ---------------------------------------------------

  datatype Kind = Put | Get | Range

  function KindOf(r: Request): Kind {
    if r.write then Put else if r.scanSize == -1 then Get else Range
  }

  /** The positions below n of the requests of this kind. */
  function Positions(queue: seq<Request>, n: nat, kind: Kind): seq<nat>
    requires n <= |queue|
  {
    if n == 0 then []
    else Positions(queue, n - 1, kind) + if KindOf(queue[n - 1]) == kind then [n - 1] else []
  }

  /** The requests of this kind that an event runs. */
  function Runs(e: Event, kind: Kind): seq<nat> {
    match e
    case Write(batch) => if kind.Put? then batch else []
    case MultiGet(gets) => if kind.Get? then gets else []
    case Scan(pos) => if kind.Range? then [pos] else []
  }

  function Ran(log: seq<Event>, kind: Kind): seq<nat> {
    if log == [] then [] else Ran(log[..|log| - 1], kind) + Runs(log[|log| - 1], kind)
  }

  /** The requests of this kind that the worker has put aside. */
  function Aside(w: Worker, kind: Kind): seq<nat> {
    if kind.Put? then w.batch else if kind.Get? then w.gets else []
  }

  /** The request that has been taken and not been acted on, if it is of this kind. */
  function InHand(pc: Pc, queue: seq<Request>, kind: Kind): seq<nat> {
    if (pc.Handle? || pc.Read?) && pc.pos < |queue| && KindOf(queue[pc.pos]) == kind then [pc.pos] else []
  }

  predicate RunsRead(e: Event, x: nat) {
    !e.Write? && (x in Runs(e, Get) || x in Runs(e, Range))
  }

  /** Every write before position x has been committed. */
  ghost predicate Committed(queue: seq<Request>, log: seq<Event>, x: nat) {
    forall y: nat :: y < x && y < |queue| && queue[y].write ==> y in Ran(log, Put)
  }

  /** No write from position x on has been committed. */
  ghost predicate Uncommitted(log: seq<Event>, x: nat) {
    forall y :: y in Ran(log, Put) ==> y < x
  }

  /** A read runs when all earlier writes of its queue are committed; a scan, and
      with single reads every read, runs when no later write is. */
  ghost predicate ReadsInOrder(cfg: Config, queue: seq<Request>, log: seq<Event>) {
    forall p: nat, x: nat :: p < |log| && RunsRead(log[p], x) ==>
      x < |queue| && Committed(queue, log[..p], x) && (log[p].Scan? || cfg.batchSize == 1 ==> Uncommitted(log[..p], x))
  }

  ghost predicate Counted(queue: seq<Request>, w: Worker) {
    && w.next <= |queue|
    && forall kind :: Positions(queue, w.next, kind) == Ran(w.log, kind) + Aside(w, kind) + InHand(w.pc, queue, kind)
  }

  ghost predicate PcOk(cfg: Config, queue: seq<Request>, w: Worker) {
    && w.next <= |queue|
    && (forall x :: 0 <= x < w.next ==> queue[x].num != -1)
    && (w.pc.Handle? || w.pc.Read? ==> w.pc.pos + 1 == w.next)
    && (w.pc.Read? ==> w.batch == [] && !queue[w.pc.pos].write)
    && (w.pc.Take? ==> w.next < |queue|)
    && (w.pc.LastWrites? || w.pc.LastReads? || w.pc.Done? ==> w.next < |queue| && queue[w.next].num == -1)
    && (w.pc.FlushReads? || w.pc.Wait? || w.pc.LastReads? || w.pc.Done? ==> w.batch == [])
    && (w.pc.Wait? || w.pc.Done? || cfg.batchSize == 1 ==> w.gets == [])
    && (forall x :: x in w.gets ==> x < |queue| && Committed(queue, w.log, x))
  }

  ghost predicate WorkerOk(cfg: Config, queue: seq<Request>, w: Worker) {
    PcOk(cfg, queue, w) && Counted(queue, w) && ReadsInOrder(cfg, queue, w.log)
  }

  lemma RanMore(log: seq<Event>, e: Event, kind: Kind)
    ensures Ran(log + [e], kind) == Ran(log, kind) + Runs(e, kind)
  {
    assert (log + [e])[..|log|] == log;
  }

  lemma CommittedMore(queue: seq<Request>, log: seq<Event>, e: Event, x: nat)
    requires Committed(queue, log, x)
    ensures Committed(queue, log + [e], x)
  {
    RanMore(log, e, Put);
  }

  lemma {:induction false} PositionsHas(queue: seq<Request>, n: nat, kind: Kind, x: nat)
    requires n <= |queue|
    ensures x in Positions(queue, n, kind) <==> x < n && KindOf(queue[x]) == kind
  {
    if n > 0 {
      PositionsHas(queue, n - 1, kind, x);
    }
  }

  /** Growing the log by an event whose reads are in order. */
  lemma InOrderMore(cfg: Config, queue: seq<Request>, log: seq<Event>, e: Event)
    requires ReadsInOrder(cfg, queue, log)
    requires forall x: nat :: RunsRead(e, x) ==> x < |queue| && Committed(queue, log, x) && (e.Scan? || cfg.batchSize == 1 ==> Uncommitted(log, x))
    ensures ReadsInOrder(cfg, queue, log + [e])
  {
    var log' := log + [e];
    forall p: nat, x: nat | p < |log'| && RunsRead(log'[p], x)
      ensures x < |queue| && Committed(queue, log'[..p], x) && (log'[p].Scan? || cfg.batchSize == 1 ==> Uncommitted(log'[..p], x))
    {
      assert log'[..p] == log[..p];
      assert p == |log| ==> log[..p] == log;
    }
  }

  /** Writing the batch keeps everything but the batch as it is. */
  lemma WrittenOk(cfg: Config, queue: seq<Request>, w: Worker, pc: Pc)
    requires ReadsInOrder(cfg, queue, w.log) && forall x :: x in w.gets ==> x < |queue| && Committed(queue, w.log, x)
    ensures var w' := Written(w, pc);
            && ReadsInOrder(cfg, queue, w'.log) && (forall x :: x in w'.gets ==> x < |queue| && Committed(queue, w'.log, x))
            && (forall kind :: Ran(w'.log, kind) + Aside(w', kind) == Ran(w.log, kind) + Aside(w, kind))
            && w'.batch == [] && w'.gets == w.gets && w'.next == w.next && w'.pc == pc
  {
    if w.batch != [] {
      var e := Write(w.batch);
      InOrderMore(cfg, queue, w.log, e);
      forall kind ensures Ran(w.log + [e], kind) == Ran(w.log, kind) + Runs(e, kind) {
        RanMore(w.log, e, kind);
      }
      forall x | x in w.gets ensures Committed(queue, w.log + [e], x) {
        CommittedMore(queue, w.log, e, x);
      }
    }
  }

  lemma GottenOk(cfg: Config, queue: seq<Request>, w: Worker, pc: Pc)
    requires ReadsInOrder(cfg, queue, w.log) && forall x :: x in w.gets ==> x < |queue| && Committed(queue, w.log, x)
    requires cfg.batchSize == 1 ==> forall x :: x in w.gets ==> Uncommitted(w.log, x)
    ensures var w' := Gotten(w, pc);
            && ReadsInOrder(cfg, queue, w'.log)
            && (forall kind :: Ran(w'.log, kind) + Aside(w', kind) == Ran(w.log, kind) + Aside(w, kind))
            && w'.gets == [] && w'.batch == w.batch && w'.next == w.next && w'.pc == pc
  {
    if w.gets != [] {
      var e := MultiGet(w.gets);
      InOrderMore(cfg, queue, w.log, e);
      forall kind ensures Ran(w.log + [e], kind) == Ran(w.log, kind) + Runs(e, kind) {
        RanMore(w.log, e, kind);
      }
    }
  }

  lemma TakeOk(cfg: Config, shard: Shard, queue: seq<Request>)
    requires shard.tail <= |shard.slots| && queue == shard.slots[..shard.tail]
    requires WorkerOk(cfg, queue, shard.worker) && shard.worker.pc.Take?
    ensures WorkerOk(cfg, queue, WorkStep(cfg, shard))
  {
    hide ReadsInOrder, Committed;
  }

  lemma HandleOk(cfg: Config, shard: Shard, queue: seq<Request>)
    requires shard.tail <= |shard.slots| && queue == shard.slots[..shard.tail]
    requires WorkerOk(cfg, queue, shard.worker) && shard.worker.pc.Handle?
    ensures WorkerOk(cfg, queue, WorkStep(cfg, shard))
  {
    hide ReadsInOrder, Committed, Written, Ran;
    var w := shard.worker;
    assert queue[w.pc.pos] == shard.slots[w.pc.pos];
    if queue[w.pc.pos].write {
      var w1 := w.(batch := w.batch + [w.pc.pos]);
      WrittenOk(cfg, queue, w1, Top);
    } else {
      WrittenOk(cfg, queue, w, Read(w.pc.pos));
    }
  }

  /** With the batch written, a read in hand comes after exactly the committed writes. */
  lemma InHandIsNext(cfg: Config, queue: seq<Request>, w: Worker)
    requires PcOk(cfg, queue, w) && Counted(queue, w) && w.pc.Read?
    ensures w.pc.pos < |queue| && Committed(queue, w.log, w.pc.pos) && Uncommitted(w.log, w.pc.pos)
  {
    hide Ran, Positions;
    var pos := w.pc.pos;
    assert Positions(queue, w.next, Put) == Ran(w.log, Put) + Aside(w, Put) + InHand(w.pc, queue, Put) == Ran(w.log, Put);
    forall y: nat ensures y in Ran(w.log, Put) <==> y < w.next && queue[y].write {
      PositionsHas(queue, w.next, Put, y);
    }
  }

  lemma GetOk(cfg: Config, queue: seq<Request>, w: Worker, pos: nat)
    requires WorkerOk(cfg, queue, w) && w.pc == Read(pos) && pos < |queue| && queue[pos].scanSize == -1
    ensures var w' := w.(gets := w.gets + [pos]);
            WorkerOk(cfg, queue, if |w'.gets| == cfg.batchSize then Gotten(w', Top) else w'.(pc := Top))
  {
    InHandIsNext(cfg, queue, w);
    hide ReadsInOrder, Gotten, Ran, Positions, Committed, Uncommitted;
    var w' := w.(gets := w.gets + [pos]);
    GottenOk(cfg, queue, w', Top);
    forall kind ensures Ran(w.log, kind) + Aside(w, kind) + InHand(w.pc, queue, kind) == Ran(w'.log, kind) + Aside(w', kind) {
    }
  }

  lemma ScanOk(cfg: Config, queue: seq<Request>, w: Worker, pos: nat)
    requires WorkerOk(cfg, queue, w) && w.pc == Read(pos) && pos < |queue| && queue[pos].scanSize != -1
    ensures WorkerOk(cfg, queue, w.(pc := Top, log := w.log + [Scan(pos)]))
  {
    InHandIsNext(cfg, queue, w);
    hide ReadsInOrder, Ran, Positions, Committed, Uncommitted;
    var e := Scan(pos);
    InOrderMore(cfg, queue, w.log, e);
    forall kind ensures Ran(w.log + [e], kind) == Ran(w.log, kind) + Runs(e, kind) {
      RanMore(w.log, e, kind);
    }
    forall x | x in w.gets ensures Committed(queue, w.log + [e], x) {
      CommittedMore(queue, w.log, e, x);
    }
  }

  lemma ReadOk(cfg: Config, shard: Shard, queue: seq<Request>)
    requires shard.tail <= |shard.slots| && queue == shard.slots[..shard.tail]
    requires WorkerOk(cfg, queue, shard.worker) && shard.worker.pc.Read?
    ensures WorkerOk(cfg, queue, WorkStep(cfg, shard))
  {
    hide ReadsInOrder, Gotten, Counted, Committed;
    var w := shard.worker;
    assert queue[w.pc.pos] == shard.slots[w.pc.pos];
    if queue[w.pc.pos].scanSize == -1 {
      GetOk(cfg, queue, w, w.pc.pos);
    } else {
      ScanOk(cfg, queue, w, w.pc.pos);
    }
  }

  lemma WorkOk(cfg: Config, shard: Shard, queue: seq<Request>)
    requires shard.tail <= |shard.slots| && queue == shard.slots[..shard.tail]
    requires WorkerOk(cfg, queue, shard.worker)
    ensures WorkerOk(cfg, queue, WorkStep(cfg, shard))
  {
    hide ReadsInOrder, Committed, Written, Gotten, Ran, Positions;
    var w := shard.worker;
    match w.pc
    case Take => TakeOk(cfg, shard, queue);
    case Handle(_) => HandleOk(cfg, shard, queue);
    case Read(_) => ReadOk(cfg, shard, queue);
    case FlushWrites => WrittenOk(cfg, queue, w, FlushReads);
    case LastWrites => WrittenOk(cfg, queue, w, LastReads);
    case FlushReads => GottenOk(cfg, queue, w, Wait);
    case LastReads => GottenOk(cfg, queue, w, Done);
    case _ =>
  }

  /** A longer queue does not disturb its worker. */
  lemma LongerOk(cfg: Config, queue: seq<Request>, r: Request, w: Worker)
    requires WorkerOk(cfg, queue, w)
    ensures WorkerOk(cfg, queue + [r], w)
  {
    forall kind ensures Positions(queue + [r], w.next, kind) == Positions(queue, w.next, kind) {
      PositionsLonger(queue, r, w.next, kind);
    }
    hide Positions, Ran;
  }

  lemma {:induction false} PositionsLonger(queue: seq<Request>, r: Request, n: nat, kind: Kind)
    requires n <= |queue|
    ensures Positions(queue + [r], n, kind) == Positions(queue, n, kind)
  {
    if n > 0 {
      PositionsLonger(queue, r, n - 1, kind);
    }
  }

  // ---- every state ---------------------------------------------------------------

  ghost predicate ShardOk(cfg: Config, d: Dispatcher, q: nat, shard: Shard)
    requires cfg.Valid() && d.i <= |cfg.trace|
  {
    QueueOk(cfg, d, q, shard) && WorkerOk(cfg, shard.slots[..shard.tail], shard.worker)
  }

  ghost predicate Inv(cfg: Config, s: State)
    requires cfg.Valid()
  {
    && |s.shards| == cfg.queues
    && DispatcherOk(cfg, s.disp)
    && forall q :: 0 <= q < cfg.queues ==> ShardOk(cfg, s.disp, q, s.shards[q])
  }

  /** A push publishes its request to its queue and nothing to the others. */
  lemma PushPublishes(cfg: Config, d: Dispatcher, q: nat)
    requires cfg.Valid() && DispatcherOk(cfg, d) && NextPush(cfg, d).To? && q < cfg.queues
    ensures DispatcherOk(cfg, Pushed(cfg, d)) && NextPush(cfg, d).q < cfg.queues
    ensures var push := NextPush(cfg, d);
            Published(cfg, Pushed(cfg, d), q) == Published(cfg, d, q) + if push.q == q then [push.r] else []
  {
    if d.i < |cfg.trace| {
      assert Routed(cfg, d.i + 1, q) == Routed(cfg, d.i, q) + RequestsOf(cfg, d.i, q);
    }
  }

  /** Going on to the next command publishes nothing. */
  lemma SkipPublishes(cfg: Config, d: Dispatcher, q: nat)
    requires cfg.Valid() && DispatcherOk(cfg, d) && NextPush(cfg, d).Nothing? && d.i < |cfg.trace| && q < cfg.queues
    ensures Published(cfg, Dispatcher(d.i + 1, 0, false), q) == Published(cfg, d, q)
  {
  }

  lemma DispatchKeeps(cfg: Config, s: State)
    requires cfg.Valid() && Inv(cfg, s)
    ensures Inv(cfg, DispatchStep(cfg, s))
  {
    hide WorkerOk, Published;
    var d, s' := s.disp, DispatchStep(cfg, s);
    forall q | 0 <= q < cfg.queues ensures DispatcherOk(cfg, s'.disp) && ShardOk(cfg, s'.disp, q, s'.shards[q]) {
      var shard := s.shards[q];
      assert ShardOk(cfg, d, q, shard);
      if NextPush(cfg, d).To? {
        PushPublishes(cfg, d, q);
        var r := NextPush(cfg, d).r;
        if d.filled && NextPush(cfg, d).q == q {
          assert shard.slots[..shard.tail + 1] == shard.slots[..shard.tail] + [r];
          LongerOk(cfg, shard.slots[..shard.tail], r, shard.worker);
        } else {
          assert (shard.slots + [r])[..shard.tail] == shard.slots[..shard.tail];
          PublishedIgnoresFill(cfg, d, q);
        }
      } else if d.i < |cfg.trace| {
        SkipPublishes(cfg, d, q);
      }
    }
  }

  lemma PublishedIgnoresFill(cfg: Config, d: Dispatcher, q: nat)
    requires cfg.Valid() && d.i <= |cfg.trace|
    ensures Published(cfg, d.(filled := true), q) == Published(cfg, d, q)
    ensures NextPush(cfg, d.(filled := true)) == NextPush(cfg, d)
  {
  }

  lemma StepKeepsInv(cfg: Config, s: State, step: Step)
    requires cfg.Valid() && Inv(cfg, s)
    ensures Inv(cfg, Do(cfg, s, step))
  {
    hide WorkerOk, Published, DispatchStep, WorkStep;
    match step
    case Dispatch => DispatchKeeps(cfg, s);
    case Work(q) =>
      if q < cfg.queues {
        assert ShardOk(cfg, s.disp, q, s.shards[q]);
        WorkOk(cfg, s.shards[q], s.shards[q].slots[..s.shards[q].tail]);
      }
  }

  lemma StartInv(cfg: Config)
    requires cfg.Valid()
    ensures Inv(cfg, Start(cfg))
  {
  }

  lemma {:induction false} RunInv(cfg: Config, steps: seq<Step>)
    requires cfg.Valid()
    ensures Inv(cfg, Run(cfg, steps))
  {
    hide Inv, Do;
    if steps == [] {
      StartInv(cfg);
    } else {
      var last := |steps| - 1;
      RunInv(cfg, steps[..last]);
      StepKeepsInv(cfg, Run(cfg, steps[..last]), steps[last]);
    }
  }

  // ---- what the shards have done -------------------------------------------------

  /** The requests of this kind, in order. */
  function Filter(queue: seq<Request>, kind: Kind): seq<Request> {
    if queue == [] then []
    else
      var last := |queue| - 1;
      Filter(queue[..last], kind) + if KindOf(queue[last]) == kind then [queue[last]] else []
  }

  /** The requests at these positions. */
  function Pick(queue: seq<Request>, positions: seq<nat>): seq<Request>
    requires forall i :: 0 <= i < |positions| ==> positions[i] < |queue|
  {
    seq(|positions|, i requires 0 <= i < |positions| => queue[positions[i]])
  }

  /** The update and insert commands of the trace whose key has residue q. */
  function TraceWrites(cfg: Config, n: nat, q: nat): seq<Request>
    requires cfg.Valid() && n <= |cfg.trace|
  {
    if n == 0 then []
    else
      var c := cfg.trace[n - 1];
      TraceWrites(cfg, n - 1, q) + if IsWrite(c) && c.key % cfg.queues == q then [Request(n - 1, c.key, -1, true)] else []
  }

  lemma {:induction false} PickPositions(queue: seq<Request>, n: nat, kind: Kind)
    requires n <= |queue|
    ensures forall i :: 0 <= i < |Positions(queue, n, kind)| ==> Positions(queue, n, kind)[i] < n
    ensures Pick(queue, Positions(queue, n, kind)) == Filter(queue[..n], kind)
  {
    if n > 0 {
      PickPositions(queue, n - 1, kind);
      assert queue[..n][..n - 1] == queue[..n - 1];
    }
  }

  lemma FilterMore(queue: seq<Request>, r: Request, kind: Kind)
    ensures Filter(queue + [r], kind) == Filter(queue, kind) + if KindOf(r) == kind then [r] else []
  {
    assert (queue + [r])[..|queue|] == queue;
  }

  lemma {:induction false} RoutedWrites(cfg: Config, n: nat, q: nat)
    requires cfg.Valid() && n <= |cfg.trace|
    ensures Filter(Routed(cfg, n, q), Put) == TraceWrites(cfg, n, q)
  {
    hide Filter;
    if n == 0 {
      assert Filter([], Put) == [] by {
        FilterNone();
      }
    } else {
      RoutedWrites(cfg, n - 1, q);
      var before, more := Routed(cfg, n - 1, q), RequestsOf(cfg, n - 1, q);
      if more == [] {
        assert before + more == before;
      } else {
        FilterMore(before, more[0], Put);
        assert more == [more[0]];
      }
    }
  }

  lemma FilterNone()
    ensures Filter([], Put) == []
  {
  }

  lemma {:induction false} RoutedNumbers(cfg: Config, n: nat, q: nat)
    requires cfg.Valid() && n <= |cfg.trace|
    ensures forall x :: 0 <= x < |Routed(cfg, n, q)| ==> Routed(cfg, n, q)[x].num >= 0
  {
    if n > 0 {
      RoutedNumbers(cfg, n - 1, q);
    }
  }

  /** A worker stops at the sentinel, after all requests of the whole trace. */
  lemma DoneAtEnd(cfg: Config, s: State, q: nat)
    requires cfg.Valid() && Inv(cfg, s) && q < cfg.queues && s.shards[q].worker.pc.Done?
    ensures var shard := s.shards[q];
            && shard.worker.next < shard.tail <= |shard.slots|
            && shard.slots[..shard.worker.next] == Routed(cfg, |cfg.trace|, q)
  {
    var shard, d := s.shards[q], s.disp;
    assert ShardOk(cfg, d, q, shard);
    var queue, next := shard.slots[..shard.tail], shard.worker.next;
    RoutedNumbers(cfg, d.i, q);
    assert queue[next].num == -1;
    assert next == |Routed(cfg, d.i, q)| && d.i == |cfg.trace|;
  }

  lemma ExitKind(cfg: Config, shard: Shard, n: nat, kind: Kind)
    requires shard.tail <= |shard.slots| && WorkerOk(cfg, shard.slots[..shard.tail], shard.worker) && shard.worker.pc.Done?
    requires n == shard.worker.next <= shard.tail
    ensures forall i :: 0 <= i < |Ran(shard.worker.log, kind)| ==> Ran(shard.worker.log, kind)[i] < |shard.slots|
    ensures Pick(shard.slots, Ran(shard.worker.log, kind)) == Filter(shard.slots[..n], kind)
  {
    hide Positions, Ran, Filter, ReadsInOrder, Committed;
    var queue, w := shard.slots[..shard.tail], shard.worker;
    assert Positions(queue, n, kind) == Ran(w.log, kind) + Aside(w, kind) + InHand(w.pc, queue, kind) == Ran(w.log, kind);
    PickPositions(queue, n, kind);
    assert queue[..n] == shard.slots[..n];
    assert Pick(shard.slots, Ran(w.log, kind)) == Pick(queue, Ran(w.log, kind));
  }

  /** When a worker has ended, its shard has been given exactly the trace's update
      and insert commands with its residue, once each and in trace order, and every
      read and scan of its queue; nothing is left aside. */
  lemma ExitIsComplete(cfg: Config, steps: seq<Step>, q: nat)
    requires cfg.Valid() && q < cfg.queues && Run(cfg, steps).shards[q].worker.pc.Done?
    ensures var shard := Run(cfg, steps).shards[q];
            && shard.worker.batch == [] == shard.worker.gets
            && (forall kind, i :: 0 <= i < |Ran(shard.worker.log, kind)| ==> Ran(shard.worker.log, kind)[i] < |shard.slots|)
            && Pick(shard.slots, Ran(shard.worker.log, Put)) == TraceWrites(cfg, |cfg.trace|, q)
            && (forall kind :: Pick(shard.slots, Ran(shard.worker.log, kind)) == Filter(Routed(cfg, |cfg.trace|, q), kind))
  {
    hide Run, Routed, Published, TraceWrites, Filter, Positions, Ran, ReadsInOrder, Committed, NextPush;
    RunInv(cfg, steps);
    var s := Run(cfg, steps);
    DoneAtEnd(cfg, s, q);
    RoutedWrites(cfg, |cfg.trace|, q);
    var shard := s.shards[q];
    assert ShardOk(cfg, s.disp, q, shard);
    forall kind
      ensures forall i :: 0 <= i < |Ran(shard.worker.log, kind)| ==> Ran(shard.worker.log, kind)[i] < |shard.slots|
      ensures Pick(shard.slots, Ran(shard.worker.log, kind)) == Filter(Routed(cfg, |cfg.trace|, q), kind)
    {
      ExitKind(cfg, shard, shard.worker.next, kind);
    }
  }

  /** In every run, when the read at position x of a queue runs, every earlier write
      of the queue has been committed; and for a scan, or when reads are not
      batched, no later one has. */
  lemma ReadsAreInOrder(cfg: Config, steps: seq<Step>, q: nat, p: nat, x: nat)
    requires cfg.Valid() && q < cfg.queues
    requires var log := Run(cfg, steps).shards[q].worker.log; p < |log| && RunsRead(log[p], x)
    ensures var shard := Run(cfg, steps).shards[q];
            var before := Ran(shard.worker.log[..p], Put);
            && x < |shard.slots|
            && (forall y: nat :: y < x && shard.slots[y].write ==> y in before)
            && (shard.worker.log[p].Scan? || cfg.batchSize == 1 ==> forall y :: y in before ==> y < x)
  {
    RunInv(cfg, steps);
    var s := Run(cfg, steps);
    var shard := s.shards[q];
    assert ShardOk(cfg, s.disp, q, shard);
    var queue := shard.slots[..shard.tail];
    assert Committed(queue, shard.worker.log[..p], x);
    forall y: nat | y < x && shard.slots[y].write ensures y in Ran(shard.worker.log[..p], Put) {
      assert queue[y].write;
    }
  }

  // ---- the exit is always within reach ---------------------------------------------

  lemma RunMore(cfg: Config, steps: seq<Step>, step: Step)
    requires cfg.Valid()
    ensures Run(cfg, steps + [step]) == Do(cfg, Run(cfg, steps), step)
  {
    assert (steps + [step])[..|steps|] == steps;
  }

  predicate Dispatched(cfg: Config, d: Dispatcher) {
    d.i == |cfg.trace| && d.j == cfg.queues
  }

  /** The dispatcher alone gets through the trace. */
  lemma DispatchAll(cfg: Config, steps: seq<Step>) returns (steps': seq<Step>)
    requires cfg.Valid()
    ensures steps <= steps' && Dispatched(cfg, Run(cfg, steps').disp)
    decreases |cfg.trace| - Run(cfg, steps).disp.i, cfg.queues - Run(cfg, steps).disp.j, !Run(cfg, steps).disp.filled
  {
    RunInv(cfg, steps);
    hide Run, ShardOk;
    steps' := steps;
    if !Dispatched(cfg, Run(cfg, steps).disp) {
      RunMore(cfg, steps, Dispatch);
      steps' := DispatchAll(cfg, steps + [Dispatch]);
    }
  }

  function Rank(pc: Pc): nat {
    match pc
    case Handle(_) => 9
    case Read(_) => 8
    case Top => 7
    case FlushWrites => 6
    case FlushReads => 5
    case Wait => 4
    case Take => 3
    case LastWrites => 2
    case LastReads => 1
    case Done => 0
  }

  /** Once everything has been sent, a worker alone comes to its end. */
  lemma WorkAll(cfg: Config, steps: seq<Step>, q: nat) returns (steps': seq<Step>)
    requires cfg.Valid() && q < cfg.queues && Dispatched(cfg, Run(cfg, steps).disp)
    ensures steps <= steps' && Dispatched(cfg, Run(cfg, steps').disp) && Run(cfg, steps').shards[q].worker.pc.Done?
    ensures forall i :: 0 <= i < cfg.queues && i != q ==> Run(cfg, steps').shards[i] == Run(cfg, steps).shards[i]
    decreases |Routed(cfg, |cfg.trace|, q)| + 1 - Run(cfg, steps).shards[q].worker.next, Rank(Run(cfg, steps).shards[q].worker.pc)
  {
    RunInv(cfg, steps);
    hide Run, WorkStep, Inv, Routed, Rank;
    steps' := steps;
    var s := Run(cfg, steps);
    if !s.shards[q].worker.pc.Done? {
      NextIsThere(cfg, s, q);
      WorkGoesOn(cfg, s, q);
      RunMore(cfg, steps, Work(q));
      steps' := WorkAll(cfg, steps + [Work(q)], q);
    }
  }

  /** A worker with a request ahead takes it sooner or later. */
  lemma WorkGoesOn(cfg: Config, s: State, q: nat)
    requires cfg.Valid() && Inv(cfg, s) && q < cfg.queues
    requires var shard := s.shards[q]; shard.worker.next < shard.tail && !shard.worker.pc.Done?
    ensures var w, w' := s.shards[q].worker, WorkStep(cfg, s.shards[q]);
            w'.next == w.next + 1 || (w'.next == w.next && Rank(w'.pc) < Rank(w.pc))
  {
    assert ShardOk(cfg, s.disp, q, s.shards[q]);
  }

  /** Before its end a worker never runs out of requests for good. */
  lemma NextIsThere(cfg: Config, s: State, q: nat)
    requires cfg.Valid() && Inv(cfg, s) && q < cfg.queues && Dispatched(cfg, s.disp)
    ensures s.shards[q].worker.next < s.shards[q].tail == |Routed(cfg, |cfg.trace|, q)| + 1
  {
    var shard := s.shards[q];
    assert ShardOk(cfg, s.disp, q, shard);
    var queue := shard.slots[..shard.tail];
    assert queue[|queue| - 1] == Sentinel;
  }

  /** From every state of every run all workers can come to their end: nobody
      waits for something that cannot happen. */
  lemma ExitIsReachable(cfg: Config, steps: seq<Step>) returns (steps': seq<Step>)
    requires cfg.Valid()
    ensures steps <= steps' && forall q :: 0 <= q < cfg.queues ==> Run(cfg, steps').shards[q].worker.pc.Done?
  {
    steps' := DispatchAll(cfg, steps);
    hide Run;
    for q := 0 to cfg.queues
      invariant steps <= steps' && Dispatched(cfg, Run(cfg, steps').disp)
      invariant forall i :: 0 <= i < q ==> Run(cfg, steps').shards[i].worker.pc.Done?
    {
      steps' := WorkAll(cfg, steps', q);
    }
  }

  // ---- batched reads ---------------------------------------------------------------

  /** No read of this log ran after a later write of its queue was committed. */
  ghost predicate Exact(log: seq<Event>) {
    forall p: nat, x: nat :: p < |log| && RunsRead(log[p], x) ==> Uncommitted(log[..p], x)
  }

  ghost predicate AlwaysExact(queues: nat, batchSize: nat, writeBatch: nat)
    requires queues > 0
  {
    forall trace: seq<Command>, steps: seq<Step>, q: nat ::
      q < queues ==> Exact(Run(Config(trace, queues, batchSize, writeBatch), steps).shards[q].worker.log)
  }

  /** The worker of a shard after n steps of its own. */
  function Works(cfg: Config, shard: Shard, n: nat): Shard {
    if n == 0 then shard
    else var before := Works(cfg, shard, n - 1); before.(worker := WorkStep(cfg, before))
  }

  lemma {:induction false} WorksIsRun(cfg: Config, steps: seq<Step>, q: nat, n: nat) returns (steps': seq<Step>)
    requires cfg.Valid() && q < cfg.queues
    ensures Run(cfg, steps').shards[q] == Works(cfg, Run(cfg, steps).shards[q], n)
  {
    hide Run, WorkStep;
    steps' := steps;
    if n > 0 {
      steps' := WorksIsRun(cfg, steps, q, n - 1);
      RunMore(cfg, steps', Work(q));
      steps' := steps' + [Work(q)];
    }
  }

  /** A read of key 0 and then an update of key 0, both sent before the worker of
      queue 0 starts. */
  lemma ReadThenUpdate(queues: nat, batchSize: nat, writeBatch: nat) returns (steps: seq<Step>)
    requires queues > 0
    ensures var cfg := Config([Command('R', 0, 0), Command('U', 0, 0)], queues, batchSize, writeBatch);
            Run(cfg, steps).shards[0] == Shard([Request(0, 0, -1, false), Request(1, 0, -1, true)], 2, Worker(Top, 0, [], [], []))
  {
    var cfg := Config([Command('R', 0, 0), Command('U', 0, 0)], queues, batchSize, writeBatch);
    var w := Worker(Top, 0, [], [], []);
    var r, u := Request(0, 0, -1, false), Request(1, 0, -1, true);
    var s0 := Run(cfg, []);
    assert s0.disp == Dispatcher(0, 0, false) && s0.shards[0] == Shard([], 0, w);
    RunMore(cfg, [], Dispatch);
    RunMore(cfg, [Dispatch], Dispatch);
    RunMore(cfg, [Dispatch, Dispatch], Dispatch);
    RunMore(cfg, [Dispatch, Dispatch, Dispatch], Dispatch);
    hide Run;
    var s1 := Do(cfg, s0, Dispatch);
    assert s1.disp == Dispatcher(0, 0, true) && s1.shards[0] == Shard([r], 0, w);
    var s2 := Do(cfg, s1, Dispatch);
    assert s2.disp == Dispatcher(1, 0, false) && s2.shards[0] == Shard([r], 1, w);
    var s3 := Do(cfg, s2, Dispatch);
    assert s3.disp == Dispatcher(1, 0, true) && s3.shards[0] == Shard([r, u], 1, w);
    var s4 := Do(cfg, s3, Dispatch);
    assert s4.shards[0] == Shard([r, u], 2, w);
    steps := [Dispatch, Dispatch, Dispatch, Dispatch];
    assert [] + [Dispatch] == [Dispatch];
    assert [Dispatch] + [Dispatch] == [Dispatch, Dispatch];
    assert [Dispatch, Dispatch] + [Dispatch] == [Dispatch, Dispatch, Dispatch];
    assert [Dispatch, Dispatch, Dispatch] + [Dispatch] == steps;
  }

  /** Unless reads run one by one, the read waits in the batch while the update is
      committed. */
  lemma ReadIsLate(cfg: Config, shard: Shard)
    requires cfg.batchSize != 1
    requires shard == Shard([Request(0, 0, -1, false), Request(1, 0, -1, true)], 2, Worker(Top, 0, [], [], []))
    ensures Works(cfg, shard, 10).worker.log == [Write([1]), MultiGet([0])]
  {
    var w4 := Worker(Top, 1, [], [0], []);
    assert Works(cfg, shard, 1).worker == Worker(Take, 0, [], [], []);
    assert Works(cfg, shard, 2).worker == Worker(Handle(0), 1, [], [], []);
    assert Works(cfg, shard, 3).worker == Worker(Read(0), 1, [], [], []);
    assert Works(cfg, shard, 4).worker == w4;
    assert Works(cfg, shard, 5).worker == w4.(pc := Take);
    assert Works(cfg, shard, 6).worker == Worker(Handle(1), 2, [], [0], []);
    var batch: seq<nat>, log: seq<Event> := [], [];
    assert batch + [1] == [1] && log + [Write([1])] == [Write([1])];
    assert Works(cfg, shard, 7).worker ==
           if cfg.writeBatch <= 1 then Worker(Top, 2, [], [0], [Write([1])]) else Worker(Top, 2, [1], [0], []);
    assert Works(cfg, shard, 9).worker == Worker(FlushReads, 2, [], [0], [Write([1])]);
  }

  /** Reads never run after a later write of their queue, in all runs of all traces,
      if and only if they are not batched. */
  lemma ExactIffSingle(queues: nat, batchSize: nat, writeBatch: nat)
    requires queues > 0
    ensures AlwaysExact(queues, batchSize, writeBatch) <==> batchSize == 1
  {
    if batchSize == 1 {
      forall trace: seq<Command>, steps: seq<Step>, q: nat | q < queues
        ensures Exact(Run(Config(trace, queues, batchSize, writeBatch), steps).shards[q].worker.log)
      {
        var cfg := Config(trace, queues, batchSize, writeBatch);
        RunInv(cfg, steps);
        assert ShardOk(cfg, Run(cfg, steps).disp, q, Run(cfg, steps).shards[q]);
      }
    } else {
      var cfg := Config([Command('R', 0, 0), Command('U', 0, 0)], queues, batchSize, writeBatch);
      var steps := ReadThenUpdate(queues, batchSize, writeBatch);
      ReadIsLate(cfg, Run(cfg, steps).shards[0]);
      steps := WorksIsRun(cfg, steps, 0, 10);
      var log := Run(cfg, steps).shards[0].worker.log;
      LateIsNotExact();
    }
  }

  lemma LateIsNotExact()
    ensures !Exact([Write([1]), MultiGet([0])])
  {
    var log := [Write([1]), MultiGet([0])];
    assert RunsRead(log[1], 0);
    assert log[..1] == [] + [Write([1])];
    RanMore([], Write([1]), Put);
    assert 1 in Ran(log[..1], Put);
  }

  // ---- batch sizes -------------------------------------------------------------------

  /** No event is empty; a batch of writes has at most writeBatch entries, or one if
      that is 0; a batch of reads has at most batchSize entries, unless that is 0. */
  predicate SizeOk(cfg: Config, e: Event) {
    match e
    case Write(batch) => 0 < |batch| && (|batch| <= cfg.writeBatch || |batch| == 1)
    case MultiGet(gets) => 0 < |gets| && (|gets| <= cfg.batchSize || cfg.batchSize == 0)
    case Scan(_) => true
  }

  /** What is put aside is less than a full batch. */
  ghost predicate Sized(cfg: Config, w: Worker) {
    && (w.batch == [] || |w.batch| < cfg.writeBatch)
    && (|w.gets| < cfg.batchSize || cfg.batchSize == 0)
    && forall p :: 0 <= p < |w.log| ==> SizeOk(cfg, w.log[p])
  }

  lemma WrittenSized(cfg: Config, w: Worker, pc: Pc)
    requires |w.gets| < cfg.batchSize || cfg.batchSize == 0
    requires forall p :: 0 <= p < |w.log| ==> SizeOk(cfg, w.log[p])
    requires |w.batch| <= cfg.writeBatch || |w.batch| <= 1
    ensures Sized(cfg, Written(w, pc))
  {
  }

  lemma GottenSized(cfg: Config, w: Worker, pc: Pc)
    requires w.batch == [] || |w.batch| < cfg.writeBatch
    requires forall p :: 0 <= p < |w.log| ==> SizeOk(cfg, w.log[p])
    requires |w.gets| <= cfg.batchSize || cfg.batchSize == 0
    ensures Sized(cfg, Gotten(w, pc))
  {
  }

  lemma WorkKeepsSizes(cfg: Config, shard: Shard)
    requires Sized(cfg, shard.worker)
    ensures Sized(cfg, WorkStep(cfg, shard))
  {
    hide Written, Gotten;
    var w := shard.worker;
    match w.pc
    case FlushWrites => WrittenSized(cfg, w, FlushReads);
    case LastWrites => WrittenSized(cfg, w, LastReads);
    case FlushReads => GottenSized(cfg, w, Wait);
    case LastReads => GottenSized(cfg, w, Done);
    case Handle(pos) =>
      WrittenSized(cfg, w, Read(pos));
      WrittenSized(cfg, w.(batch := w.batch + [pos]), Top);
    case Read(pos) =>
      if |w.gets| + 1 == cfg.batchSize { GottenSized(cfg, w.(gets := w.gets + [pos]), Top); }
    case _ =>
  }

  /** In every run: a full batch goes to the shard at once, and no batch is larger. */
  lemma {:induction false} BatchesAreBounded(cfg: Config, steps: seq<Step>, q: nat)
    requires cfg.Valid() && q < cfg.queues
    ensures Sized(cfg, Run(cfg, steps).shards[q].worker)
  {
    if steps != [] {
      var last := |steps| - 1;
      BatchesAreBounded(cfg, steps[..last], q);
      WorkerAfter(cfg, Run(cfg, steps[..last]), steps[last], q);
      WorkKeepsSizes(cfg, Run(cfg, steps[..last]).shards[q]);
    }
  }

  /** A step moves a worker only if it is the worker's own. */
  lemma WorkerAfter(cfg: Config, s: State, step: Step, q: nat)
    requires cfg.Valid() && |s.shards| == cfg.queues && q < cfg.queues
    ensures var s' := Do(cfg, s, step);
            |s'.shards| == cfg.queues &&
            s'.shards[q].worker == if step == Work(q) then WorkStep(cfg, s.shards[q]) else s.shards[q].worker
  {
  }

  // ---- residues ------------------------------------------------------------------------

  /** Shard q has committed a write to this key. */
  ghost predicate Commits(cfg: Config, steps: seq<Step>, q: nat, key: int)
    requires cfg.Valid()
  {
    && q < cfg.queues
    && var shard := Run(cfg, steps).shards[q];
       exists x :: x in Ran(shard.worker.log, Put) && x < |shard.slots| && shard.slots[x].key == key
  }

  lemma {:induction false} RoutedResidue(cfg: Config, n: nat, q: nat)
    requires cfg.Valid() && n <= |cfg.trace|
    ensures forall x :: 0 <= x < |Routed(cfg, n, q)| && Routed(cfg, n, q)[x].write ==> Routed(cfg, n, q)[x].key % cfg.queues == q
  {
    if n > 0 {
      RoutedResidue(cfg, n - 1, q);
    }
  }

  lemma PublishedResidue(cfg: Config, d: Dispatcher, q: nat)
    requires cfg.Valid() && d.i <= |cfg.trace|
    ensures var queue := Published(cfg, d, q);
            forall x :: 0 <= x < |queue| && queue[x].write ==> queue[x].key % cfg.queues == q
  {
    RoutedResidue(cfg, d.i, q);
  }

  /** Whatever a shard has committed in a run is of its own residue. */
  lemma CommittedResidue(cfg: Config, steps: seq<Step>, q: nat, key: int)
    requires cfg.Valid() && Commits(cfg, steps, q, key)
    ensures key % cfg.queues == q
  {
    RunInv(cfg, steps);
    hide Run, Published, Positions, Ran, ReadsInOrder, Committed;
    var s := Run(cfg, steps);
    var shard := s.shards[q];
    assert ShardOk(cfg, s.disp, q, shard);
    var x :| x in Ran(shard.worker.log, Put) && x < |shard.slots| && shard.slots[x].key == key;
    var queue := shard.slots[..shard.tail];
    PositionsHas(queue, shard.worker.next, Put, x);
    PublishedResidue(cfg, s.disp, q);
    assert queue[x] == shard.slots[x];
  }
}
