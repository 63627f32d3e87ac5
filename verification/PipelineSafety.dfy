/** What every reachable state of the pipeline keeps: nothing is lost, duplicated or
    reordered between the stages. */
module PipelineSafety {
  import opened Core
  import opened Wire
  import opened Records
  import opened Pipeline
  import Correlator
  import Engine

  function Opt<T>(x: Option<T>): seq<T> {
    if x.Some? then [x.value] else []
  }

  /** The connection events among these, and the others. */
  function OfKind(es: seq<Event>, connection: bool): seq<Event> {
    if es == [] then []
    else
      var n := |es| - 1;
      OfKind(es[..n], connection) + if (es[n].eventType == "connection") == connection then [es[n]] else []
  }

  /** What the fan-out makes of the events it has taken: filtered and annotated. */
  function Enriched(cfg: Config, es: seq<Event>): seq<Attributed> {
    if es == [] then []
    else
      var n := |es| - 1;
      Enriched(cfg, es[..n]) + Opt(Enrich(cfg, n, es[n]))
  }

  predicate Bounded(s: Sys) {
    |s.corrOut| <= EVENTS_CAPACITY && |s.eventsCh| <= EVENTS_CAPACITY && |s.outputCh| <= EVENTS_CAPACITY
    && |s.engineCh| <= EVENTS_CAPACITY && |s.alertsCh| <= ALERTS_CAPACITY
  }

  /** The mutex is held across steps exactly while a matched HandleAccept is blocked on
      its send or about to forget its entry. */
  predicate LockHeld(s: Sys) {
    s.locked <==> s.reader.Sending? || s.reader.Deleting?
  }

  /** The pending map with the entry that a matched accept still has to forget gone. */
  function Settled(s: Sys): Correlator.Pending {
    match s.reader
    case Sending(k, _) => s.pending - {k}
    case Deleting(k) => s.pending - {k}
    case _ => s.pending
  }

  /** The correlator's events, from those already forwarded to the one being sent. */
  function FromCorrelator(s: Sys): seq<Event> {
    OfKind(s.log.entered, true) + Opt(s.fanIn) + s.corrOut
    + if s.reader.Sending? then [s.reader.event] else []
  }

  /** The correlator, its sends blocking, behaves as the atomic one on the same history. */
  ghost predicate CorrelatorFollows(cfg: Config, s: Sys) {
    && Correlator.After(s.log.ops, cfg.timeout) == Correlator.State(Settled(s), FromCorrelator(s))
    && (forall e <- s.corrOut :: e.eventType == "connection")
    && (s.fanIn.Some? ==> s.fanIn.value.eventType == "connection")
    && (s.reader.Sending? ==> s.reader.event.eventType == "connection")
  }

  /** File and exec events reach the merged channel in the order they were read. */
  ghost predicate DirectFollows(s: Sys) {
    && s.log.direct == OfKind(s.log.entered, false) + (if s.reader.Forwarding? then [s.reader.event] else [])
    && (s.reader.Forwarding? ==> s.reader.event.eventType != "connection")
    && (s.reader.Holding? && s.reader.record.Direct? ==> s.reader.record.event.eventType != "connection")
    && (s.reader.Holding? && s.reader.record.Correlated? ==> !s.reader.record.op.Sweep?)
  }

  ghost predicate FanOutFollows(cfg: Config, s: Sys) {
    && s.log.taken <= |s.log.entered|
    && s.eventsCh == s.log.entered[s.log.taken..]
    && Enriched(cfg, s.log.entered[..s.log.taken])
         == s.log.toOutput + (if s.fanOut.ToOutput? then [s.fanOut.event] else [])
    && s.log.toOutput == s.log.toEngine + (if s.fanOut.ToEngine? then [s.fanOut.event] else [])
  }

  /** The event the engine panics on, if it does. */
  function Struck(s: Sys): seq<Attributed> {
    if s.life.Alive? then [] else [s.life.event]
  }

  function SentOnPanic(cfg: Config, s: Sys): seq<Alert> {
    if s.life.Alive? then [] else Engine.SentBeforePanic(cfg.env, cfg.rules, s.life.event, s.engine)
  }

  /** The alerts are those of the engine's run, up to a panic. */
  ghost predicate AlertsFollow(cfg: Config, s: Sys) {
    var run := Engine.Run(cfg.env, cfg.rules, s.log.processed);
    && s.engine == run.state
    && s.log.printedAlerts + s.alertsCh + s.unsent == run.alerts + SentOnPanic(cfg, s)
  }

  /** A panic strikes at the first event that touches a nil tracker map. */
  ghost predicate PanicFollows(cfg: Config, s: Sys) {
    && (s.life.Alive? || Panics(cfg, s.life.event))
    && (forall e <- s.log.processed :: !Panics(cfg, e))
    && (s.life.Dead? ==> s.unsent == [])
  }

  ghost predicate SinksFollow(cfg: Config, s: Sys) {
    && s.log.toOutput == s.log.printedEvents + s.outputCh
    && s.log.toEngine == s.log.processed + Struck(s) + s.engineCh
    && AlertsFollow(cfg, s) && PanicFollows(cfg, s)
  }

  ghost predicate Inv(cfg: Config, s: Sys) {
    Bounded(s) && LockHeld(s) && CorrelatorFollows(cfg, s) && DirectFollows(s)
    && FanOutFollows(cfg, s) && SinksFollow(cfg, s)
  }

  lemma StartInv(cfg: Config)
    ensures Inv(cfg, START)
  {}

  lemma OfKindAppend(es: seq<Event>, e: Event, connection: bool)
    ensures OfKind(es + [e], connection) ==
            OfKind(es, connection) + if (e.eventType == "connection") == connection then [e] else []
  {
    assert (es + [e])[..|es|] == es;
  }

  lemma BoundedReader(cfg: Config, s: Sys, a: Action)
    requires Bounded(s) && Enabled(s, a) && OfReader(a)
    ensures Bounded(ReaderNext(cfg, s, a))
  {
    hide DispatchRecord, HandleOp;
    HandleOpKeeps(s);
  }

  lemma BoundedFan(cfg: Config, s: Sys, a: Action)
    requires Bounded(s) && Enabled(s, a)
    ensures OfFanIn(a) ==> Bounded(FanInNext(s, a))
    ensures OfFanOut(a) ==> Bounded(FanOutNext(cfg, s, a))
  {
    hide Enrich;
  }

  lemma BoundedStep(cfg: Config, s: Sys, a: Action)
    requires Bounded(s) && Enabled(s, a)
    ensures Bounded(Next(cfg, s, a))
  {
    hide ReaderNext, CleanupNext, FanInNext, FanOutNext, EngineStep;
    if OfReader(a) {
      BoundedReader(cfg, s, a);
    } else {
      BoundedFan(cfg, s, a);
    }
  }

  lemma LockStep(cfg: Config, s: Sys, a: Action)
    requires LockHeld(s) && Enabled(s, a)
    ensures LockHeld(Next(cfg, s, a))
  {
    hide DispatchRecord, CleanupNext, FanInNext, FanOutNext, EngineNext, OutputNext;
  }

  lemma DispatchKinds(boot: int, data: Bytes)
    ensures var r := DispatchRecord(boot, data);
      && (r.Direct? ==> r.event.eventType != "connection")
      && (r.Correlated? ==> !r.op.Sweep?)
  {
    hide ParseEvent, NullTermStr, OpenFlagsToOp;
  }

  lemma DirectStep(cfg: Config, s: Sys, a: Action)
    requires DirectFollows(s) && CorrelatorFollows(cfg, s) && Enabled(s, a)
    ensures DirectFollows(Next(cfg, s, a))
  {
    hide DispatchRecord, CleanupNext, FanOutNext, EngineNext, OutputNext, HandleOp, Correlator.After, OfKind;
    match a
    case Read(data) => DispatchKinds(cfg.boot, data);
    case TakeRecord => DirectTaken(cfg, s);
    case ForwardDirect => OfKindAppend(s.log.entered, s.reader.event, false);
    case FanInSend => OfKindAppend(s.log.entered, s.fanIn.value, false);
    case _ =>
  }

  /** A record leaves the reader's hands as an operation or an event to forward. */
  lemma DirectTaken(cfg: Config, s: Sys)
    requires DirectFollows(s) && Enabled(s, TakeRecord)
    ensures DirectFollows(Next(cfg, s, TakeRecord))
  {
    hide CleanupNext, FanInNext, FanOutNext, EngineNext, OutputNext, OfKind;
  }

  lemma AfterAppend(ops: seq<Correlator.Op>, op: Correlator.Op, timeout: Duration)
    ensures Correlator.After(ops + [op], timeout) == Correlator.Apply(Correlator.After(ops, timeout), op, timeout)
  {
    assert (ops + [op])[..|ops|] == ops;
  }

  /** An operation on the pending map, under the mutex. */
  lemma OperationStep(cfg: Config, s: Sys, a: Action)
    requires LockHeld(s) && CorrelatorFollows(cfg, s) && DirectFollows(s) && Enabled(s, a)
    requires a.TakeRecord? || a.SweepPending?
    ensures CorrelatorFollows(cfg, Next(cfg, s, a))
  {
    hide DispatchRecord, FanInNext, FanOutNext, EngineNext, OutputNext, Correlator.After, OfKind;
    if a.SweepPending? {
      AfterAppend(s.log.ops, Correlator.Sweep(a.now), cfg.timeout);
    } else if s.reader.record.Correlated? {
      AfterAppend(s.log.ops, s.reader.record.op, cfg.timeout);
    }
  }

  /** An event of the correlator moves on: from the accept to its channel, from there
      into the fan-in's hands, and on to the merged channel. */
  lemma SendStep(cfg: Config, s: Sys)
    requires LockHeld(s) && CorrelatorFollows(cfg, s) && Enabled(s, SendAccepted)
    ensures CorrelatorFollows(cfg, Next(cfg, s, SendAccepted))
  {
    hide HandleOp, CleanupNext, FanInNext, FanOutNext, EngineNext, OutputNext, Correlator.After, OfKind;
    assert FromCorrelator(Next(cfg, s, SendAccepted)) == FromCorrelator(s);
  }

  lemma FanInStep(cfg: Config, s: Sys, a: Action)
    requires LockHeld(s) && CorrelatorFollows(cfg, s) && Enabled(s, a) && (a.FanInReceive? || a.FanInSend?)
    ensures CorrelatorFollows(cfg, Next(cfg, s, a))
  {
    hide ReaderNext, CleanupNext, FanOutNext, EngineNext, OutputNext, Correlator.After, OfKind;
    hide FromCorrelator;
    FanInKeepsOrder(s, a);
  }

  /** An event in the fan-in's hands has not changed its place. */
  lemma FanInKeepsOrder(s: Sys, a: Action)
    requires Enabled(s, a) && OfFanIn(a) && (s.fanIn.Some? ==> s.fanIn.value.eventType == "connection")
    ensures FromCorrelator(FanInNext(s, a)) == FromCorrelator(s)
  {
    hide OfKind;
    if a.FanInSend? {
      OfKindAppend(s.log.entered, s.fanIn.value, true);
    } else {
      Shift(OfKind(s.log.entered, true), [], s.corrOut);
    }
  }

  /** Taking the first item of a queue and putting it at the end of the one before. */
  lemma Shift<T>(done: seq<T>, held: seq<T>, queue: seq<T>)
    requires queue != []
    ensures done + held + queue == done + (held + [queue[0]]) + queue[1..]
  {}

  lemma CorrelatorStep(cfg: Config, s: Sys, a: Action)
    requires LockHeld(s) && CorrelatorFollows(cfg, s) && DirectFollows(s) && Enabled(s, a)
    ensures CorrelatorFollows(cfg, Next(cfg, s, a))
  {
    hide DispatchRecord, FanOutNext, EngineNext, OutputNext, Correlator.After, Correlator.Apply, OfKind, HandleOp;
    match a
    case TakeRecord => OperationStep(cfg, s, a);
    case SweepPending(_) => OperationStep(cfg, s, a);
    case ForwardDirect => OfKindAppend(s.log.entered, s.reader.event, true);
    case FanInSend => FanInStep(cfg, s, a);
    case FanInReceive => FanInStep(cfg, s, a);
    case SendAccepted => SendStep(cfg, s);
    case _ =>
  }

  /** An event enters the merged channel. */
  lemma EntryStep(cfg: Config, s: Sys, a: Action)
    requires FanOutFollows(cfg, s) && Enabled(s, a) && (a.ForwardDirect? || a.FanInSend?)
    ensures FanOutFollows(cfg, Next(cfg, s, a))
  {
    hide CleanupNext, FanOutNext, EngineNext, OutputNext, HandleOp, Enriched;
    var e := if a.ForwardDirect? then s.reader.event else s.fanIn.value;
    assert (s.log.entered + [e])[..s.log.taken] == s.log.entered[..s.log.taken];
  }

  /** The fan-out takes the next event. */
  lemma TakeStep(cfg: Config, s: Sys)
    requires FanOutFollows(cfg, s) && Enabled(s, FanOutReceive)
    ensures FanOutFollows(cfg, Next(cfg, s, FanOutReceive))
  {
    hide ReaderNext, CleanupNext, FanInNext, EngineNext, OutputNext, Enrich, Enriched;
    var entered, n := s.log.entered, s.log.taken;
    assert s.eventsCh[0] == entered[n];
    assert entered[..n + 1] == entered[..n] + [entered[n]];
    EnrichedAppend(cfg, entered[..n], entered[n]);
  }

  lemma FanOutStep(cfg: Config, s: Sys, a: Action)
    requires FanOutFollows(cfg, s) && Enabled(s, a)
    ensures FanOutFollows(cfg, Next(cfg, s, a))
  {
    hide DispatchRecord, Enrich, CleanupNext, EngineNext, OutputNext, Enriched, HandleOp;
    match a
    case FanOutReceive => TakeStep(cfg, s);
    case ForwardDirect => EntryStep(cfg, s, a);
    case FanInSend => EntryStep(cfg, s, a);
    case TakeRecord => HandleOpKeeps(s);
    case _ =>
  }

  /** Operations on the pending map leave every channel alone. */
  lemma HandleOpKeeps(s: Sys)
    ensures s.reader.Holding? && s.reader.record.Correlated? ==>
      var t := HandleOp(s, s.reader.record.op);
      && t.corrOut == s.corrOut && t.fanIn == s.fanIn && t.eventsCh == s.eventsCh && t.fanOut == s.fanOut
      && t.outputCh == s.outputCh && t.engineCh == s.engineCh
      && t.engine == s.engine && t.life == s.life && t.unsent == s.unsent && t.alertsCh == s.alertsCh
      && t.log == s.log.(ops := t.log.ops)
  {}

  lemma EnrichedAppend(cfg: Config, es: seq<Event>, e: Event)
    ensures Enriched(cfg, es + [e]) == Enriched(cfg, es) + Opt(Enrich(cfg, |es|, e))
  {
    assert (es + [e])[..|es|] == es;
  }

  lemma ReceiveStep(cfg: Config, s: Sys)
    requires SinksFollow(cfg, s) && Enabled(s, EngineReceive)
    ensures SinksFollow(cfg, Next(cfg, s, EngineReceive))
  {
    hide ReaderNext, CleanupNext, FanInNext, FanOutNext, OutputNext;
    hide AlertsFollow, PanicFollows, Panics, Engine.Process, Engine.SentBeforePanic;
    Shift(s.log.processed, [], s.engineCh);
    ReceivedAlerts(cfg, s);
    ReceivedPanic(cfg, s);
  }

  lemma ReceivedPanic(cfg: Config, s: Sys)
    requires PanicFollows(cfg, s) && Enabled(s, EngineReceive)
    ensures PanicFollows(cfg, EngineStep(cfg, s))
  {
    hide Panics, Engine.Process, Engine.SentBeforePanic;
  }

  lemma ReceivedAlerts(cfg: Config, s: Sys)
    requires AlertsFollow(cfg, s) && Enabled(s, EngineReceive)
    ensures AlertsFollow(cfg, EngineStep(cfg, s))
  {
    hide Engine.Process, Engine.Run, Engine.SentBeforePanic, Panics;
    RunAppend(cfg, s.log.processed, s.engineCh[0]);
    assert s.log.printedAlerts + s.alertsCh + s.unsent == s.log.printedAlerts + s.alertsCh;
  }

  /** The engine sends an alert. */
  lemma EmitStep(cfg: Config, s: Sys)
    requires SinksFollow(cfg, s) && Enabled(s, EngineEmit)
    ensures SinksFollow(cfg, Next(cfg, s, EngineEmit))
  {
    hide ReaderNext, CleanupNext, FanInNext, FanOutNext, OutputNext;
    hide SentOnPanic, Engine.Run, Panics;
    Shift(s.log.printedAlerts, s.alertsCh, s.unsent);
    SameRun(cfg, s, Next(cfg, s, EngineEmit));
  }

  /** The output prints an alert. */
  lemma PrintAlertStep(cfg: Config, s: Sys)
    requires SinksFollow(cfg, s) && Enabled(s, PrintAlert)
    ensures SinksFollow(cfg, Next(cfg, s, PrintAlert))
  {
    hide ReaderNext, CleanupNext, FanInNext, FanOutNext, EngineNext;
    hide AlertsFollow, Panics;
    PrintedAlerts(cfg, s);
  }

  lemma PrintedAlerts(cfg: Config, s: Sys)
    requires AlertsFollow(cfg, s) && Enabled(s, PrintAlert)
    ensures AlertsFollow(cfg, OutputNext(s, PrintAlert))
  {
    hide SentOnPanic, Engine.Run;
    SameRun(cfg, s, OutputNext(s, PrintAlert));
    ShiftFirst(s.log.printedAlerts, s.alertsCh, s.unsent);
  }

  lemma ShiftFirst<T>(done: seq<T>, queue: seq<T>, rest: seq<T>)
    requires queue != []
    ensures done + queue + rest == done + [queue[0]] + queue[1..] + rest
  {}

  lemma PanicStep(cfg: Config, s: Sys)
    requires SinksFollow(cfg, s) && Enabled(s, EnginePanic)
    ensures SinksFollow(cfg, Next(cfg, s, EnginePanic))
  {
    hide ReaderNext, CleanupNext, FanInNext, FanOutNext, OutputNext;
    hide Engine.SentBeforePanic, Engine.Run, Panics;
  }

  lemma SameRun(cfg: Config, s: Sys, t: Sys)
    requires t.engine == s.engine && t.life == s.life
    ensures SentOnPanic(cfg, t) == SentOnPanic(cfg, s)
  {}

  lemma PrintStep(cfg: Config, s: Sys)
    requires SinksFollow(cfg, s) && Enabled(s, PrintEvent)
    ensures SinksFollow(cfg, Next(cfg, s, PrintEvent))
  {
    hide ReaderNext, CleanupNext, FanInNext, FanOutNext, EngineNext;
    hide AlertsFollow, PanicFollows;
    assert s.outputCh == [s.outputCh[0]] + s.outputCh[1..];
    SameAlerts(cfg, s, Next(cfg, s, PrintEvent));
  }

  lemma SameAlerts(cfg: Config, s: Sys, t: Sys)
    requires AlertsFollow(cfg, s) && PanicFollows(cfg, s)
    requires t.engine == s.engine && t.life == s.life && t.unsent == s.unsent && t.alertsCh == s.alertsCh
    requires t.log.processed == s.log.processed && t.log.printedAlerts == s.log.printedAlerts
    ensures AlertsFollow(cfg, t) && PanicFollows(cfg, t)
  {
    hide Engine.Run, Engine.SentBeforePanic, Panics;
  }

  lemma SinksStep(cfg: Config, s: Sys, a: Action)
    requires SinksFollow(cfg, s) && Enabled(s, a)
    ensures SinksFollow(cfg, Next(cfg, s, a))
  {
    hide ReaderNext, CleanupNext, FanInNext, Enrich, EngineNext, OutputNext, AlertsFollow, PanicFollows;
    match a
    case EngineReceive => ReceiveStep(cfg, s);
    case EngineEmit => EmitStep(cfg, s);
    case EnginePanic => PanicStep(cfg, s);
    case PrintAlert => PrintAlertStep(cfg, s);
    case PrintEvent => PrintStep(cfg, s);
    case _ => SameAlerts(cfg, s, Next(cfg, s, a));
  }

  lemma RunAppend(cfg: Config, events: seq<Attributed>, e: Attributed)
    ensures var before := Engine.Run(cfg.env, cfg.rules, events);
      var o := Engine.Process(cfg.env, cfg.rules, e, before.state);
      Engine.Run(cfg.env, cfg.rules, events + [e]) == Engine.Outcome(o.state, before.alerts + o.alerts)
  {
    assert (events + [e])[..|events|] == events;
  }

  lemma StepInv(cfg: Config, s: Sys, a: Action)
    requires Inv(cfg, s) && Enabled(s, a)
    ensures Inv(cfg, Next(cfg, s, a))
  {
    hide Bounded, LockHeld, CorrelatorFollows, DirectFollows, FanOutFollows, SinksFollow, Next, Enabled;
    BoundedStep(cfg, s, a);
    LockStep(cfg, s, a);
    CorrelatorStep(cfg, s, a);
    DirectStep(cfg, s, a);
    FanOutStep(cfg, s, a);
    SinksStep(cfg, s, a);
  }

  /** Every state of every run keeps the invariant. */
  lemma {:induction false} RunInv(cfg: Config, s: Sys, actions: seq<Action>)
    requires Inv(cfg, s) && Legal(cfg, s, actions)
    ensures Inv(cfg, Reached(cfg, s, actions))
    decreases |actions|
  {
    hide Inv, Next, Enabled;
    if actions != [] {
      StepInv(cfg, s, actions[0]);
      RunInv(cfg, Next(cfg, s, actions[0]), actions[1..]);
    }
  }

  /** The event passes: its source is known, and if a name prefix is set, its source
      carries it, or its destination does, or its destination is not known. */
  predicate Passes(cfg: Config, n: nat, e: Event) {
    var src, dst := cfg.resolve(2 * n, e.srcCgroupID), cfg.resolve(2 * n + 1, e.dstCgroupID);
    && src.Some?
    && (cfg.filterPrefix <= src.value.name
        || e.dstCgroupID == 0 || dst.None? || cfg.filterPrefix <= dst.value.name)
  }

  /** The containers the event is annotated with, and nothing else changed. */
  predicate Annotated(cfg: Config, n: nat, e: Event, x: Attributed) {
    && x.srcContainer == cfg.resolve(2 * n, e.srcCgroupID)
    && x.dstContainer == (if e.dstCgroupID == 0 then None else cfg.resolve(2 * n + 1, e.dstCgroupID))
    && e == x.(srcContainer := e.srcContainer, dstContainer := e.dstContainer)
  }

  lemma EnrichMeaning(cfg: Config, n: nat, e: Event)
    ensures Enrich(cfg, n, e).Some? <==> Passes(cfg, n, e)
    ensures Enrich(cfg, n, e).Some? ==> Annotated(cfg, n, e, Enrich(cfg, n, e).value)
  {}

  /** The fan-out keeps exactly the events that pass, in order, each once, changed only
      by the annotation. */
  lemma {:induction false} EnrichedIsFilter(cfg: Config, es: seq<Event>) returns (kept: seq<nat>)
    ensures |kept| == |Enriched(cfg, es)|
    ensures forall i, j | 0 <= i < j < |kept| :: kept[i] < kept[j]
    ensures forall j | 0 <= j < |kept| ::
      kept[j] < |es| && Annotated(cfg, kept[j], es[kept[j]], Enriched(cfg, es)[j])
    ensures forall n: nat | n < |es| :: n in kept <==> Passes(cfg, n, es[n])
  {
    hide Enrich, Passes, Annotated;
    kept := [];
    if es != [] {
      var last := |es| - 1;
      kept := EnrichedIsFilter(cfg, es[..last]);
      EnrichMeaning(cfg, last, es[last]);
      if Enrich(cfg, last, es[last]).Some? { kept := kept + [last]; }
      forall n: nat | n < |es| ensures n in kept <==> Passes(cfg, n, es[n]) {
        if n < last { assert es[..last][n] == es[n]; }
      }
    }
  }

  /** Fan-out lockstep: in every reachable state what was sent to the engine is a prefix
      of what was sent to the output, at most one shorter; both come from the events
      that entered the merged channel by the filter, in order, none lost or doubled;
      and every event the engine sees has a source container. */
  lemma Lockstep(cfg: Config, actions: seq<Action>)
    requires Legal(cfg, START, actions)
    ensures var s := Reached(cfg, START, actions); var log := s.log;
      && log.taken <= |log.entered|
      && log.toEngine <= log.toOutput && |log.toOutput| <= |log.toEngine| + 1
      && log.toOutput <= Enriched(cfg, log.entered[..log.taken])
      && |Enriched(cfg, log.entered[..log.taken])| <= |log.toOutput| + 1
      && log.entered == log.entered[..log.taken] + s.eventsCh
      && forall i | 0 <= i < |log.toEngine| :: log.toEngine[i].srcContainer.Some?
  {
    hide Bounded, LockHeld, CorrelatorFollows, DirectFollows, SinksFollow, Enriched, Next, Enabled;
    StartInv(cfg);
    RunInv(cfg, START, actions);
  }

  /** Where goroutines block. Channels hold up to 1024 events or 100 alerts. While a
      matched accept waits for room or forgets its entry it holds the mutex, and no
      sweep can run; while alerts wait for room the engine takes no event. */
  lemma BlocksAsBounded(cfg: Config, actions: seq<Action>, now: int)
    requires Legal(cfg, START, actions) && !Reached(cfg, START, actions).life.Dead?
    ensures var s := Reached(cfg, START, actions);
      && |s.corrOut| <= 1024 && |s.eventsCh| <= 1024 && |s.outputCh| <= 1024 && |s.engineCh| <= 1024
      && |s.alertsCh| <= 100
      && (s.reader.Sending? ==> (Enabled(s, SendAccepted) <==> |s.corrOut| < 1024))
      && (s.reader.Forwarding? ==> (Enabled(s, ForwardDirect) <==> |s.eventsCh| < 1024))
      && (s.fanIn.Some? ==> (Enabled(s, FanInSend) <==> |s.eventsCh| < 1024))
      && (s.fanOut.ToOutput? ==> (Enabled(s, FanOutToOutput) <==> |s.outputCh| < 1024))
      && (s.fanOut.ToEngine? ==> (Enabled(s, FanOutToEngine) <==> |s.engineCh| < 1024))
      && (s.unsent != [] ==> (Enabled(s, EngineEmit) <==> |s.alertsCh| < 100) && !Enabled(s, EngineReceive))
      && (s.reader.Sending? || s.reader.Deleting? ==> !Enabled(s, SweepPending(now)) && !Enabled(s, TakeRecord))
  {
    hide CorrelatorFollows, DirectFollows, FanOutFollows, SinksFollow, Next;
    StartInv(cfg);
    RunInv(cfg, START, actions);
  }

  /** The blocking correlator refines the atomic one: in every reachable state, its
      pending entries, except one just being completed, and the events it sent or is
      sending are those of the atomic correlator after the same operations. */
  lemma CorrelatorRefined(cfg: Config, actions: seq<Action>)
    requires Legal(cfg, START, actions)
    ensures var s := Reached(cfg, START, actions);
      Correlator.After(s.log.ops, cfg.timeout) == Correlator.State(Settled(s), FromCorrelator(s))
  {
    hide Bounded, LockHeld, DirectFollows, FanOutFollows, SinksFollow, Next, Enabled;
    StartInv(cfg);
    RunInv(cfg, START, actions);
  }
}
