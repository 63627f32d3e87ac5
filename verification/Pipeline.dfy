/** The goroutines and channels of the monitor (cmd/main.go) as a transition system:
    every action is one step of one goroutine, and any enabled action may come next.
    A goroutine blocked on a full channel, or on the correlator's mutex, is one whose
    action is not enabled. */
module Pipeline {
  import opened Core
  import opened Wire
  import opened Sockets
  import opened Rules
  import opened Records
  import Correlator
  import Engine

  const EVENTS_CAPACITY: nat := 1024
  const ALERTS_CAPACITY: nat := 100

  /** The engine's rules and library calls, whether its tracker map has been made (the
      `New` that main calls leaves it nil), the sweep timeout, the boot time, the name
      filter, and the resolver, whose answer may change from call to call. */
  datatype Config = Config(
    env: Engine.Env,
    rules: seq<Rule>,
    trackersMade: bool,
    timeout: Duration,
    boot: int,
    filterPrefix: string,
    resolve: (nat, uint64) -> Option<ContainerInfo>)

  /** The main goroutine: reading, holding a record, blocked in HandleAccept on the send
      or about to forget the entry, or blocked sending a file or exec event. */
  datatype Reader =
    | Reading
    | Holding(record: Record)
    | Sending(conn: Conn, event: Event)
    | Deleting(conn: Conn)
    | Forwarding(event: Event)

  /** The fan-out goroutine: receiving, or between its two sends. */
  datatype FanOut = Receiving | ToOutput(event: Attributed) | ToEngine(event: Attributed)

  /** The engine: at work, sending what the event that makes it panic raised before, or
      past the panic, which ends the whole program. */
  datatype Life = Alive | Panicking(event: Attributed) | Dead(event: Attributed)

  datatype Sys = Sys(
    reader: Reader,
    locked: bool,
    pending: Correlator.Pending,
    sweeping: bool,
    corrOut: seq<Event>,
    fanIn: Option<Event>,
    eventsCh: seq<Event>,
    fanOut: FanOut,
    outputCh: seq<Attributed>,
    engineCh: seq<Attributed>,
    engine: Engine.State,
    life: Life,
    unsent: seq<Alert>,
    alertsCh: seq<Alert>,
    log: Log)

  /** What has happened so far; no step depends on it. */
  datatype Log = Log(
    ops: seq<Correlator.Op>,
    direct: seq<Event>,
    entered: seq<Event>,
    taken: nat,
    toOutput: seq<Attributed>,
    toEngine: seq<Attributed>,
    processed: seq<Attributed>,
    printedEvents: seq<Attributed>,
    printedAlerts: seq<Alert>)

  const START := Sys(Reading, false, map[], false, [], None, [], Receiving, [], [], Engine.EMPTY, Alive, [], [],
                     Log([], [], [], 0, [], [], [], [], []))

  /** The steps of the world and of the goroutines; a sweep reads the clock once it has
      the mutex. */
  datatype Action =
    | Read(data: Bytes)
    | Tick
    | TakeRecord
    | SendAccepted
    | ForgetPending
    | ForwardDirect
    | SweepPending(now: int)
    | FanInReceive
    | FanInSend
    | FanOutReceive
    | FanOutToOutput
    | FanOutToEngine
    | EngineReceive
    | EngineEmit
    | EnginePanic
    | PrintEvent
    | PrintAlert

  /** Actions of the outside world: a record arrives, the cleanup ticker fires. */
  predicate External(a: Action) {
    a.Read? || a.Tick?
  }

  /** Resolve both containers and filter. The n-th event makes the resolver's calls 2n
      and 2n + 1. An event passes the name filter if its source carries the prefix, or
      if it has no known destination, or if its destination carries the prefix. */
  function Enrich(cfg: Config, n: nat, e: Event): Option<Attributed> {
    match cfg.resolve(2 * n, e.srcCgroupID)
    case None => None
    case Some(src) =>
      var dst := if e.dstCgroupID != 0 then cfg.resolve(2 * n + 1, e.dstCgroupID) else None;
      if cfg.filterPrefix != "" && !(cfg.filterPrefix <= src.name)
         && dst.Some? && !(cfg.filterPrefix <= dst.value.name)
      then None
      else Some(e.(srcContainer := Some(src), dstContainer := dst))
  }

  predicate Enabled(s: Sys, a: Action) {
    !s.life.Dead? &&
    match a
    case Read(_) => s.reader.Reading?
    case Tick => !s.sweeping
    case TakeRecord => s.reader.Holding? && (s.reader.record.Correlated? ==> !s.locked)
    case SendAccepted => s.reader.Sending? && |s.corrOut| < EVENTS_CAPACITY
    case ForgetPending => s.reader.Deleting?
    case ForwardDirect => s.reader.Forwarding? && |s.eventsCh| < EVENTS_CAPACITY
    case SweepPending(_) => s.sweeping && !s.locked
    case FanInReceive => s.fanIn.None? && s.corrOut != []
    case FanInSend => s.fanIn.Some? && |s.eventsCh| < EVENTS_CAPACITY
    case FanOutReceive => s.fanOut.Receiving? && s.eventsCh != []
    case FanOutToOutput => s.fanOut.ToOutput? && |s.outputCh| < EVENTS_CAPACITY
    case FanOutToEngine => s.fanOut.ToEngine? && |s.engineCh| < EVENTS_CAPACITY
    case EngineReceive => s.life.Alive? && s.unsent == [] && s.engineCh != []
    case EngineEmit => s.unsent != [] && |s.alertsCh| < ALERTS_CAPACITY
    case EnginePanic => s.life.Panicking? && s.unsent == []
    case PrintEvent => s.outputCh != []
    case PrintAlert => s.alertsCh != []
  }

  /** The event matches a sequence step while there is no map to keep a tracker in. */
  predicate Panics(cfg: Config, e: Attributed) {
    !cfg.trackersMade && Engine.TouchesTrackers(cfg.env, cfg.rules, e)
  }

  function EngineStep(cfg: Config, s: Sys): (t: Sys)
    requires Enabled(s, EngineReceive)
    ensures t == s.(engineCh := s.engineCh[1..], engine := t.engine, life := t.life, unsent := t.unsent,
                    log := s.log.(processed := t.log.processed))
  {
    var e := s.engineCh[0];
    if Panics(cfg, e) then
      s.(engineCh := s.engineCh[1..], life := Panicking(e),
         unsent := Engine.SentBeforePanic(cfg.env, cfg.rules, e, s.engine))
    else
      var o := Engine.Process(cfg.env, cfg.rules, e, s.engine);
      s.(engineCh := s.engineCh[1..], engine := o.state, unsent := o.alerts,
         log := s.log.(processed := s.log.processed + [e]))
  }

  /** HandleConnect and an unmatched HandleAccept take and release the mutex in one
      step; a matched HandleAccept keeps it until its entry is forgotten. */
  function HandleOp(s: Sys, op: Correlator.Op): Sys {
    var log := s.log.(ops := s.log.ops + [op]);
    match op
    case Connect(k, entry) => s.(reader := Reading, pending := s.pending[k := entry], log := log)
    case Accept(k, peer) =>
      if k in s.pending
      then s.(reader := Sending(k, Correlator.Connection(k, s.pending[k], peer)), locked := true, log := log)
      else s.(reader := Reading, log := log)
    case Sweep(_) => s
  }

  // One step of each goroutine, and what it leaves alone

  predicate OfReader(a: Action) {
    a.Read? || a.TakeRecord? || a.SendAccepted? || a.ForgetPending? || a.ForwardDirect?
  }

  function ReaderNext(cfg: Config, s: Sys, a: Action): (t: Sys)
    requires Enabled(s, a) && OfReader(a)
    ensures t == s.(reader := t.reader, locked := t.locked, pending := t.pending, corrOut := t.corrOut,
                    eventsCh := t.eventsCh,
                    log := s.log.(ops := t.log.ops, direct := t.log.direct, entered := t.log.entered))
  {
    var log := s.log;
    match a
    case Read(data) => s.(reader := Holding(DispatchRecord(cfg.boot, data)))
    case TakeRecord =>
      (match s.reader.record
       case Ignored => s.(reader := Reading)
       case Direct(e) => s.(reader := Forwarding(e), log := log.(direct := log.direct + [e]))
       case Correlated(op) => HandleOp(s, op))
    case SendAccepted =>
      s.(reader := Deleting(s.reader.conn), corrOut := s.corrOut + [s.reader.event])
    case ForgetPending =>
      s.(reader := Reading, locked := false, pending := s.pending - {s.reader.conn})
    case ForwardDirect =>
      s.(reader := Reading, eventsCh := s.eventsCh + [s.reader.event],
         log := log.(entered := log.entered + [s.reader.event]))
  }

  predicate OfCleanup(a: Action) {
    a.Tick? || a.SweepPending?
  }

  function CleanupNext(cfg: Config, s: Sys, a: Action): (t: Sys)
    requires Enabled(s, a) && OfCleanup(a)
    ensures t == s.(sweeping := t.sweeping, pending := t.pending, log := s.log.(ops := t.log.ops))
  {
    match a
    case Tick => s.(sweeping := true)
    case SweepPending(now) =>
      s.(sweeping := false, pending := Correlator.Swept(s.pending, now, cfg.timeout),
         log := s.log.(ops := s.log.ops + [Correlator.Sweep(now)]))
  }

  predicate OfFanIn(a: Action) {
    a.FanInReceive? || a.FanInSend?
  }

  function FanInNext(s: Sys, a: Action): (t: Sys)
    requires Enabled(s, a) && OfFanIn(a)
    ensures t == s.(fanIn := t.fanIn, corrOut := t.corrOut, eventsCh := t.eventsCh,
                    log := s.log.(entered := t.log.entered))
  {
    match a
    case FanInReceive =>
      s.(fanIn := Some(s.corrOut[0]), corrOut := s.corrOut[1..])
    case FanInSend =>
      s.(fanIn := None, eventsCh := s.eventsCh + [s.fanIn.value],
         log := s.log.(entered := s.log.entered + [s.fanIn.value]))
  }

  predicate OfFanOut(a: Action) {
    a.FanOutReceive? || a.FanOutToOutput? || a.FanOutToEngine?
  }

  function FanOutNext(cfg: Config, s: Sys, a: Action): (t: Sys)
    requires Enabled(s, a) && OfFanOut(a)
    ensures t == s.(fanOut := t.fanOut, eventsCh := t.eventsCh, outputCh := t.outputCh, engineCh := t.engineCh,
                    log := s.log.(taken := t.log.taken, toOutput := t.log.toOutput, toEngine := t.log.toEngine))
  {
    var log := s.log;
    match a
    case FanOutReceive =>
      var x := Enrich(cfg, log.taken, s.eventsCh[0]);
      s.(fanOut := if x.Some? then ToOutput(x.value) else Receiving, eventsCh := s.eventsCh[1..],
         log := log.(taken := log.taken + 1))
    case FanOutToOutput =>
      s.(fanOut := ToEngine(s.fanOut.event), outputCh := s.outputCh + [s.fanOut.event],
         log := log.(toOutput := log.toOutput + [s.fanOut.event]))
    case FanOutToEngine =>
      s.(fanOut := Receiving, engineCh := s.engineCh + [s.fanOut.event],
         log := log.(toEngine := log.toEngine + [s.fanOut.event]))
  }

  predicate OfEngine(a: Action) {
    a.EngineReceive? || a.EngineEmit? || a.EnginePanic?
  }

  function EngineNext(cfg: Config, s: Sys, a: Action): (t: Sys)
    requires Enabled(s, a) && OfEngine(a)
    ensures t == s.(engineCh := t.engineCh, engine := t.engine, life := t.life, unsent := t.unsent,
                    alertsCh := t.alertsCh, log := s.log.(processed := t.log.processed))
  {
    match a
    case EngineReceive => EngineStep(cfg, s)
    case EngineEmit =>
      s.(unsent := s.unsent[1..], alertsCh := s.alertsCh + [s.unsent[0]])
    case EnginePanic => s.(life := Dead(s.life.event))
  }

  predicate OfOutput(a: Action) {
    a.PrintEvent? || a.PrintAlert?
  }

  function OutputNext(s: Sys, a: Action): (t: Sys)
    requires Enabled(s, a) && OfOutput(a)
    ensures t == s.(outputCh := t.outputCh, alertsCh := t.alertsCh,
                    log := s.log.(printedEvents := t.log.printedEvents, printedAlerts := t.log.printedAlerts))
  {
    var log := s.log;
    match a
    case PrintEvent =>
      s.(outputCh := s.outputCh[1..], log := log.(printedEvents := log.printedEvents + [s.outputCh[0]]))
    case PrintAlert =>
      s.(alertsCh := s.alertsCh[1..], log := log.(printedAlerts := log.printedAlerts + [s.alertsCh[0]]))
  }

  function Next(cfg: Config, s: Sys, a: Action): Sys
    requires Enabled(s, a)
  {
    if OfReader(a) then ReaderNext(cfg, s, a)
    else if OfCleanup(a) then CleanupNext(cfg, s, a)
    else if OfFanIn(a) then FanInNext(s, a)
    else if OfFanOut(a) then FanOutNext(cfg, s, a)
    else if OfEngine(a) then EngineNext(cfg, s, a)
    else OutputNext(s, a)
  }

  /** A run: every action enabled where it is taken. */
  predicate Legal(cfg: Config, s: Sys, actions: seq<Action>)
    decreases |actions|
  {
    actions == [] || (Enabled(s, actions[0]) && Legal(cfg, Next(cfg, s, actions[0]), actions[1..]))
  }

  function Reached(cfg: Config, s: Sys, actions: seq<Action>): Sys
    requires Legal(cfg, s, actions)
    decreases |actions|
  {
    if actions == [] then s else Reached(cfg, Next(cfg, s, actions[0]), actions[1..])
  }
}
