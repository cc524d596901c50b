/** What the shards have been asked for when their workers have ended, read off the
    letters of the trace. */
module WorkersTrace {
  import opened Workers
  import opened WorkersProof

  /** Command number r.num of the trace asks shard q for request r. Updates and inserts
      are writes and reads are point reads, each of the shard of their key's residue; a
      scan goes to every shard, and with the size -1 it is taken for a point read. */
  predicate Asked(cfg: Config, q: nat, kind: Kind, r: Request)
    requires cfg.Valid()
  {
    && 0 <= r.num < |cfg.trace|
    && var c := cfg.trace[r.num];
       match kind
       case Put => (c.cmd == 'U' || c.cmd == 'I') && c.key % cfg.queues == q && r == Request(r.num, c.key, -1, true)
       case Get =>
         && ((c.cmd == 'R' && c.key % cfg.queues == q) || (c.cmd == 'S' && c.scanSize == -1))
         && r == Request(r.num, c.key, -1, false)
       case Range => c.cmd == 'S' && c.scanSize != -1 && r == Request(r.num, c.key, c.scanSize, false)
  }

  ghost predicate Increasing(s: seq<Request>) {
    forall i, j :: 0 <= i < j < |s| ==> s[i].num < s[j].num
  }

  lemma RequestsAre(cfg: Config, i: nat, q: nat, r: Request)
    requires cfg.Valid() && i < |cfg.trace| && q < cfg.queues
    ensures r in RequestsOf(cfg, i, q) <==> r.num == i && Asked(cfg, q, KindOf(r), r)
    ensures |RequestsOf(cfg, i, q)| <= 1
  {
  }

  lemma {:induction false} RoutedIs(cfg: Config, n: nat, q: nat)
    requires cfg.Valid() && n <= |cfg.trace| && q < cfg.queues
    ensures forall r :: r in Routed(cfg, n, q) <==> r.num < n && Asked(cfg, q, KindOf(r), r)
    ensures Increasing(Routed(cfg, n, q))
  {
    hide RequestsOf, Asked;
    if n > 0 {
      RoutedIs(cfg, n - 1, q);
      var before, more := Routed(cfg, n - 1, q), RequestsOf(cfg, n - 1, q);
      forall r ensures r in more <==> r.num == n - 1 && Asked(cfg, q, KindOf(r), r) {
        RequestsAre(cfg, n - 1, q, r);
      }
      RequestsAre(cfg, n - 1, q, Sentinel);
      assert forall i :: 0 <= i < |before| ==> before[i] in before;
      assert forall i :: 0 <= i < |more| ==> more[i] in more;
    } else {
      forall r: Request ensures !(r.num < 0 && Asked(cfg, q, KindOf(r), r)) {
        AskedHasNumber(cfg, q, r);
      }
    }
  }

  lemma AskedHasNumber(cfg: Config, q: nat, r: Request)
    requires cfg.Valid()
    ensures Asked(cfg, q, KindOf(r), r) ==> 0 <= r.num < |cfg.trace|
  {
  }

  lemma {:induction false} FilterHas(queue: seq<Request>, kind: Kind, r: Request)
    ensures r in Filter(queue, kind) <==> r in queue && KindOf(r) == kind
  {
    if queue != [] {
      var last := |queue| - 1;
      FilterHas(queue[..last], kind, r);
      hide Filter;
      assert queue == queue[..last] + [queue[last]];
      FilterMore(queue[..last], queue[last], kind);
    }
  }

  lemma {:induction false} FilterIncreases(queue: seq<Request>, kind: Kind)
    requires Increasing(queue)
    ensures Increasing(Filter(queue, kind))
  {
    if queue != [] {
      var last := |queue| - 1;
      var before := queue[..last];
      FilterIncreases(before, kind);
      hide Filter;
      assert queue == before + [queue[last]];
      FilterMore(before, queue[last], kind);
      forall i | 0 <= i < |Filter(before, kind)| ensures Filter(before, kind)[i].num < queue[last].num {
        FilterHas(before, kind, Filter(before, kind)[i]);
      }
    }
  }

  lemma AskedOfKind(cfg: Config, q: nat, kind: Kind, r: Request)
    requires cfg.Valid()
    ensures Asked(cfg, q, kind, r) ==> KindOf(r) == kind
  {
  }

  /** When a worker has ended, its shard has been given exactly the requests of each kind
      that the trace asks it for, once each and in trace order. */
  lemma TraceIsServed(cfg: Config, steps: seq<Step>, q: nat, kind: Kind)
    requires cfg.Valid() && q < cfg.queues && Run(cfg, steps).shards[q].worker.pc.Done?
    ensures var shard := Run(cfg, steps).shards[q];
            && (forall i :: 0 <= i < |Ran(shard.worker.log, kind)| ==> Ran(shard.worker.log, kind)[i] < |shard.slots|)
            && var served := Pick(shard.slots, Ran(shard.worker.log, kind));
            && Increasing(served)
            && forall r :: r in served <==> Asked(cfg, q, kind, r)
  {
    hide Run, Routed, Filter, Ran, Asked, Increasing, Pick;
    ExitIsComplete(cfg, steps, q);
    var all := Routed(cfg, |cfg.trace|, q);
    RoutedIs(cfg, |cfg.trace|, q);
    FilterIncreases(all, kind);
    forall r ensures r in Filter(all, kind) <==> Asked(cfg, q, kind, r) {
      FilterHas(all, kind, r);
      AskedOfKind(cfg, q, kind, r);
      AskedHasNumber(cfg, q, r);
    }
  }

  /** The event runs the request at position x, as one of this kind. */
  predicate RunBy(e: Event, kind: Kind, x: nat) {
    match kind
    case Put => e.Write? && x in e.batch
    case Get => e.MultiGet? && x in e.gets
    case Range => e.Scan? && x == e.pos
  }

  lemma RunsIs(e: Event, kind: Kind, x: nat)
    ensures x in Runs(e, kind) <==> RunBy(e, kind, x)
  {
  }

  /** What has run are the requests of the events of the log, and nothing else. */
  lemma {:induction false} RanIs(log: seq<Event>, kind: Kind, x: nat)
    ensures x in Ran(log, kind) <==> exists p :: 0 <= p < |log| && RunBy(log[p], kind, x)
  {
    if log != [] {
      var last := |log| - 1;
      RanIs(log[..last], kind, x);
      hide Ran, Runs, RunBy;
      assert log == log[..last] + [log[last]];
      RunsIs(log[last], kind, x);
      RanMore(log[..last], log[last], kind);
      if exists p :: 0 <= p < last && RunBy(log[p], kind, x) {
        var p :| 0 <= p < last && RunBy(log[p], kind, x);
        assert RunBy(log[..last][p], kind, x);
      }
      if x in Ran(log[..last], kind) {
        var p :| 0 <= p < last && RunBy(log[..last][p], kind, x);
        assert RunBy(log[p], kind, x);
      }
    }
  }
}
