/** The dispatcher and the worker threads of p2KVS (code/ycsb.cpp): one queue and
    one worker per shard, under any interleaving of their steps. Writes to a shard
    are taken to succeed. */
module Workers {

  datatype Command = Command(cmd: char, key: nat, scanSize: int)

  /** An entry of a queue; the number -1 marks the end. */
  datatype Request = Request(num: int, key: int, scanSize: int, write: bool)

  const Sentinel := Request(-1, -1, -1, false)

  datatype Config = Config(trace: seq<Command>, queues: nat, batchSize: nat, writeBatch: nat) {
    ghost predicate Valid() {
      queues > 0
    }
  }

  /** What a shard is asked to do, by positions in its queue. */
  datatype Event = Write(batch: seq<nat>) | MultiGet(gets: seq<nat>) | Scan(pos: nat)

  datatype Pc =
    | Top                  // the test of tail at the head of the loop
    | FlushWrites          // idle: write the batch
    | FlushReads           // idle: run the collected reads
    | Wait                 // idle: sleep until there is a request
    | Take                 // read the next request
    | Handle(pos: nat)     // act on the request taken
    | Read(pos: nat)       // the request is a read and the batch is written
    | LastWrites           // the end: write the batch
    | LastReads            // the end: run the collected reads
    | Done

  datatype Worker = Worker(pc: Pc, next: nat, batch: seq<nat>, gets: seq<nat>, log: seq<Event>)

  /** A queue with its slots filled so far, its tail, and its worker. */
  datatype Shard = Shard(slots: seq<Request>, tail: nat, worker: Worker)

  /** The dispatcher is at command i, in a loop over queues at j, and has or has
      not filled the slot whose tail it is about to advance; after the trace it
      sends one sentinel to each queue. */
  datatype Dispatcher = Dispatcher(i: nat, j: nat, filled: bool)

  datatype State = State(disp: Dispatcher, shards: seq<Shard>)

  datatype Step = Dispatch | Work(q: nat)

  // ---- the dispatcher --------------------------------------------------------

  function Route(cfg: Config, key: nat): (q: nat)
    requires cfg.Valid()
    ensures q < cfg.queues
  {
    key % cfg.queues
  }

  predicate IsWrite(c: Command) {
    c.cmd == 'U' || c.cmd == 'I'
  }

  /** The queue and the request that the dispatcher is about to push, if any. */
  datatype Push = Nothing | To(q: nat, r: Request)

  function NextPush(cfg: Config, d: Dispatcher): Push
    requires cfg.Valid()
  {
    if d.i < |cfg.trace| then
      var c := cfg.trace[d.i];
      if c.cmd == 'R' || IsWrite(c) then To(Route(cfg, c.key), Request(d.i, c.key, -1, IsWrite(c)))
      else if c.cmd == 'S' && d.j < cfg.queues then To(d.j, Request(d.i, c.key, c.scanSize, false))
      else Nothing
    else if d.j < cfg.queues then To(d.j, Sentinel)
    else Nothing
  }

  /** Where the dispatcher is after a push. */
  function Pushed(cfg: Config, d: Dispatcher): Dispatcher {
    if d.i < |cfg.trace| && cfg.trace[d.i].cmd != 'S' then Dispatcher(d.i + 1, 0, false)
    else Dispatcher(d.i, d.j + 1, false)
  }

  function DispatchStep(cfg: Config, s: State): State
    requires cfg.Valid() && |s.shards| == cfg.queues
  {
    var d := s.disp;
    match NextPush(cfg, d)
    case Nothing =>
      if d.i < |cfg.trace| then s.(disp := Dispatcher(d.i + 1, 0, false)) else s
    case To(q, r) =>
      if q >= cfg.queues then s
      else
        var shard := s.shards[q];
        if !d.filled then
          var slots := if shard.tail < |shard.slots| then shard.slots[shard.tail := r] else shard.slots + [r];
          State(d.(filled := true), s.shards[q := shard.(slots := slots)])
        else
          State(Pushed(cfg, d), s.shards[q := shard.(tail := shard.tail + 1)])
  }

  // ---- a worker --------------------------------------------------------------

  function Written(w: Worker, pc: Pc): Worker {
    if w.batch == [] then w.(pc := pc) else w.(pc := pc, batch := [], log := w.log + [Write(w.batch)])
  }

  function Gotten(w: Worker, pc: Pc): Worker {
    if w.gets == [] then w.(pc := pc) else w.(pc := pc, gets := [], log := w.log + [MultiGet(w.gets)])
  }

  function WorkStep(cfg: Config, shard: Shard): Worker {
    var w := shard.worker;
    match w.pc
    case Top => w.(pc := if w.next >= shard.tail then FlushWrites else Take)
    case FlushWrites => Written(w, FlushReads)
    case FlushReads => Gotten(w, Wait)
    case Wait => if w.next >= shard.tail then w else w.(pc := Take)
    case Take =>
      if w.next >= |shard.slots| then w
      else if shard.slots[w.next].num == -1 then w.(pc := LastWrites)
      else w.(pc := Handle(w.next), next := w.next + 1)
    case Handle(pos) =>
      if pos >= |shard.slots| then w
      else if shard.slots[pos].write then
        var w' := w.(batch := w.batch + [pos]);
        if |w'.batch| >= cfg.writeBatch then Written(w', Top) else w'.(pc := Top)
      else
        Written(w, Read(pos))
    case Read(pos) =>
      if pos >= |shard.slots| then w
      else if shard.slots[pos].scanSize == -1 then
        var w' := w.(gets := w.gets + [pos]);
        if |w'.gets| == cfg.batchSize then Gotten(w', Top) else w'.(pc := Top)
      else
        w.(pc := Top, log := w.log + [Scan(pos)])
    case LastWrites => Written(w, LastReads)
    case LastReads => Gotten(w, Done)
    case Done => w
  }

  function Do(cfg: Config, s: State, step: Step): State
    requires cfg.Valid() && |s.shards| == cfg.queues
  {
    match step
    case Dispatch => DispatchStep(cfg, s)
    case Work(q) =>
      if q < cfg.queues then s.(shards := s.shards[q := s.shards[q].(worker := WorkStep(cfg, s.shards[q]))])
      else s
  }

  function Start(cfg: Config): State {
    State(Dispatcher(0, 0, false), seq(cfg.queues, _ => Shard([], 0, Worker(Top, 0, [], [], []))))
  }

  /** The states that a schedule leads to. */
  function Run(cfg: Config, steps: seq<Step>): (s: State)
    requires cfg.Valid()
    ensures |s.shards| == cfg.queues
  {
    if steps == [] then Start(cfg) else Do(cfg, Run(cfg, steps[..|steps| - 1]), steps[|steps| - 1])
  }
}
