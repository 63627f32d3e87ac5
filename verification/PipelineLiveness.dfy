/** The pipeline never deadlocks and, left alone, drains: a weighted count of the work
    still in it goes down with every step, until all of it is printed or filtered. */
module PipelineLiveness {
  import opened Core
  import opened Rules
  import opened Records
  import opened Pipeline
  import opened PipelineSafety
  import opened PipelineSource
  import Correlator
  import Engine
  import Tracker

  /** Nothing is held by a goroutine and every channel is empty; only the cleanup may
      have a tick to serve. */
  predicate Emptied(s: Sys) {
    && s.reader.Reading? && s.corrOut == [] && s.fanIn.None?
    && s.eventsCh == [] && s.fanOut.Receiving? && s.outputCh == [] && s.engineCh == []
    && s.life.Alive? && s.unsent == [] && s.alertsCh == []
  }

  predicate Drained(s: Sys) {
    Emptied(s) && !s.sweeping
  }

  /** A step that moves work along: of a goroutine, and not the cleanup's. */
  predicate Moves(a: Action) {
    !External(a) && !a.SweepPending?
  }

  /** The stage nearest to the sink that can move. */
  function Mover(s: Sys): Action {
    if s.outputCh != [] then PrintEvent
    else if s.alertsCh != [] then PrintAlert
    else if s.unsent != [] then EngineEmit
    else if s.life.Panicking? then EnginePanic
    else if s.engineCh != [] then EngineReceive
    else if s.fanOut.ToOutput? then FanOutToOutput
    else if s.fanOut.ToEngine? then FanOutToEngine
    else if s.eventsCh != [] then FanOutReceive
    else if s.fanIn.Some? then FanInSend
    else if s.corrOut != [] then FanInReceive
    else
      match s.reader
      case Sending(_, _) => SendAccepted
      case Deleting(_) => ForgetPending
      case Forwarding(_) => ForwardDirect
      case Holding(_) => TakeRecord
      case Reading => SweepPending(0)
  }

  /** Deadlock freedom: in every reachable state with work left, even with HandleAccept
      blocked while it holds the mutex and the engine blocked on its alerts, some
      goroutine can move without help from outside, unless a panic has ended it all. */
  lemma SomeStepEnabled(cfg: Config, actions: seq<Action>)
    requires Legal(cfg, START, actions)
    requires var s := Reached(cfg, START, actions); !Drained(s) && !s.life.Dead?
    ensures exists a :: !External(a) && Enabled(Reached(cfg, START, actions), a)
  {
    hide Inv;
    var s := Reached(cfg, START, actions);
    StartInv(cfg);
    RunInv(cfg, START, actions);
    MoverEnabled(cfg, s);
  }

  lemma MoverEnabled(cfg: Config, s: Sys)
    requires Inv(cfg, s) && !Drained(s) && !s.life.Dead?
    ensures !External(Mover(s)) && Enabled(s, Mover(s))
    ensures !Emptied(s) ==> Moves(Mover(s))
  {
    hide CorrelatorFollows, DirectFollows, FanOutFollows, SinksFollow;
  }

  // How many alerts one event can raise

  function RuleLimit(r: Rule): nat {
    match r.sequence
    case Some(s) => |s.steps|
    case None => 1
  }

  function AlertLimit(rules: seq<Rule>): nat {
    if rules == [] then 0 else AlertLimit(rules[..|rules| - 1]) + RuleLimit(rules[|rules| - 1])
  }

  lemma {:induction false} VisitsAlertAtMost(t: Option<Tracker.Tracker>, o: Tracker.Obs, w: Duration, i: nat)
    requires i <= |o.hits|
    ensures Tracker.VisitSteps(t, o, w, i).alerts <= i
  {
    if i > 0 { VisitsAlertAtMost(t, o, w, i - 1); }
  }

  lemma RuleAlertsAtMost(env: Engine.Env, r: Rule, e: Attributed, st: Engine.State)
    ensures |Engine.RuleStep(env, r, e, st).alerts| <= RuleLimit(r)
  {
    if r.sequence.Some? {
      var s := r.sequence.value;
      var t := Engine.Lookup(st.trackers, Engine.SequenceKey(r, e));
      VisitsAlertAtMost(t, Engine.ObsOf(env, s, e), Engine.SequenceSize(env, s), |s.steps|);
    }
  }

  lemma {:induction false} AlertsAtMost(env: Engine.Env, rules: seq<Rule>, e: Attributed, st: Engine.State, i: nat)
    requires i <= |rules|
    ensures |Engine.ProcessFirst(env, rules, e, st, i).alerts| <= AlertLimit(rules[..i])
  {
    hide Engine.RuleStep;
    if i > 0 {
      AlertsAtMost(env, rules, e, st, i - 1);
      RuleAlertsAtMost(env, rules[i - 1], e, Engine.ProcessFirst(env, rules, e, st, i - 1).state);
      assert rules[..i][..i - 1] == rules[..i - 1];
    }
  }

  lemma {:induction false} LimitGrows(rules: seq<Rule>, i: nat)
    requires i <= |rules|
    ensures AlertLimit(rules[..i]) <= AlertLimit(rules)
  {
    if i == |rules| {
      assert rules[..i] == rules;
    } else {
      LimitGrows(rules[..|rules| - 1], i);
      assert rules[..|rules| - 1][..i] == rules[..i];
    }
  }

  lemma EventAlertsAtMost(cfg: Config, e: Attributed, st: Engine.State)
    ensures |Engine.Process(cfg.env, cfg.rules, e, st).alerts| <= AlertLimit(cfg.rules)
    ensures |Engine.SentBeforePanic(cfg.env, cfg.rules, e, st)| <= AlertLimit(cfg.rules)
  {
    hide Engine.ProcessFirst, AlertLimit;
    var i := Engine.QuietRules(cfg.env, cfg.rules, e);
    AlertsAtMost(cfg.env, cfg.rules, e, st, |cfg.rules|);
    AlertsAtMost(cfg.env, cfg.rules, e, st, i);
    LimitGrows(cfg.rules, i);
    LimitGrows(cfg.rules, |cfg.rules|);
  }

  // The work left

  function Weighted(weight: nat, n: nat): nat {
    weight * n
  }

  lemma OneLess(weight: nat, n: nat)
    requires n > 0
    ensures Weighted(weight, n) == Weighted(weight, n - 1) + weight
  {
    assert weight * n == weight * (n - 1) + weight;
  }

  function ReaderWork(r: Reader, limit: nat): nat {
    match r
    case Reading => 0
    case Holding(_) => 2 * limit + 11
    case Sending(_, _) => 2 * limit + 10
    case Deleting(_) => 1
    case Forwarding(_) => 2 * limit + 7
  }

  function FanOutWork(f: FanOut, limit: nat): nat {
    match f
    case Receiving => 0
    case ToOutput(_) => 2 * limit + 5
    case ToEngine(_) => 2 * limit + 3
  }

  /** Every item weighs more the more stages it has left, and an event that may still
      raise alerts weighs as much as all of them. */
  function ItemWork(s: Sys, limit: nat): nat {
    ReaderWork(s.reader, limit)
    + Weighted(2 * limit + 8, |s.corrOut|) + (if s.fanIn.Some? then 2 * limit + 7 else 0)
    + Weighted(2 * limit + 6, |s.eventsCh|) + FanOutWork(s.fanOut, limit)
    + |s.outputCh| + Weighted(2 * limit + 2, |s.engineCh|)
    + (if s.life.Panicking? then 1 else 0) + 2 * |s.unsent| + |s.alertsCh|
  }

  function Sweeping(s: Sys): nat {
    if s.sweeping then 1 else 0
  }

  function Work(s: Sys, limit: nat): nat {
    ItemWork(s, limit) + Sweeping(s)
  }

  lemma TakeRecordLowersWork(cfg: Config, s: Sys, limit: nat)
    requires Enabled(s, TakeRecord)
    requires s.reader.record.Correlated? ==> !s.reader.record.op.Sweep?
    ensures ItemWork(Next(cfg, s, TakeRecord), limit) < ItemWork(s, limit)
    ensures Next(cfg, s, TakeRecord).sweeping == s.sweeping
  {
    hide CleanupNext, FanInNext, FanOutNext, EngineNext, OutputNext, Weighted, FanOutWork;
  }

  lemma ReaderStepLowersWork(cfg: Config, s: Sys, a: Action, limit: nat)
    requires Enabled(s, a) && (a.SendAccepted? || a.ForgetPending? || a.ForwardDirect?)
    ensures ItemWork(Next(cfg, s, a), limit) < ItemWork(s, limit)
    ensures Next(cfg, s, a).sweeping == s.sweeping
  {
    hide CleanupNext, FanInNext, FanOutNext, EngineNext, OutputNext, HandleOp, Weighted, FanOutWork;
    var t := Next(cfg, s, a);
    if a.SendAccepted? { OneLess(2 * limit + 8, |t.corrOut|); }
    if a.ForwardDirect? { OneLess(2 * limit + 6, |t.eventsCh|); }
  }

  lemma FanStepLowersWork(cfg: Config, s: Sys, a: Action, limit: nat)
    requires Enabled(s, a)
    requires a.FanInReceive? || a.FanInSend? || a.FanOutReceive? || a.FanOutToOutput? || a.FanOutToEngine?
    ensures ItemWork(Next(cfg, s, a), limit) < ItemWork(s, limit)
    ensures Next(cfg, s, a).sweeping == s.sweeping
  {
    hide ReaderNext, CleanupNext, EngineNext, OutputNext, Enrich, Weighted, ReaderWork;
    var t := Next(cfg, s, a);
    match a
    case FanInReceive => OneLess(2 * limit + 8, |s.corrOut|);
    case FanInSend => OneLess(2 * limit + 6, |t.eventsCh|);
    case FanOutReceive => OneLess(2 * limit + 6, |s.eventsCh|);
    case FanOutToEngine => OneLess(2 * limit + 2, |t.engineCh|);
    case FanOutToOutput =>
  }

  lemma EngineStepLowersWork(cfg: Config, s: Sys)
    requires Enabled(s, EngineReceive)
    ensures ItemWork(Next(cfg, s, EngineReceive), AlertLimit(cfg.rules)) < ItemWork(s, AlertLimit(cfg.rules))
  {
    hide ReaderNext, CleanupNext, FanInNext, FanOutNext, OutputNext;
    hide Engine.Process, Engine.SentBeforePanic, AlertLimit, Weighted, ReaderWork, FanOutWork, Panics;
    OneLess(2 * AlertLimit(cfg.rules) + 2, |s.engineCh|);
    EventAlertsAtMost(cfg, s.engineCh[0], s.engine);
  }

  lemma MoveLowersItemWork(cfg: Config, s: Sys, a: Action)
    requires Enabled(s, a) && Moves(a)
    requires s.reader.Holding? && s.reader.record.Correlated? ==> !s.reader.record.op.Sweep?
    ensures ItemWork(Next(cfg, s, a), AlertLimit(cfg.rules)) < ItemWork(s, AlertLimit(cfg.rules))
    ensures Next(cfg, s, a).sweeping == s.sweeping
  {
    hide ReaderNext, CleanupNext, FanInNext, FanOutNext, EngineStep, AlertLimit, Weighted, ReaderWork, FanOutWork;
    var limit := AlertLimit(cfg.rules);
    match a
    case EngineReceive => EngineStepLowersWork(cfg, s);
    case EngineEmit =>
    case EnginePanic =>
    case PrintEvent =>
    case PrintAlert =>
    case TakeRecord => TakeRecordLowersWork(cfg, s, limit);
    case SendAccepted => ReaderStepLowersWork(cfg, s, a, limit);
    case ForgetPending => ReaderStepLowersWork(cfg, s, a, limit);
    case ForwardDirect => ReaderStepLowersWork(cfg, s, a, limit);
    case _ => FanStepLowersWork(cfg, s, a, limit);
  }

  /** The cleanup and its ticker leave all other work alone. */
  lemma CleanupKeepsItemWork(cfg: Config, s: Sys, a: Action, limit: nat)
    requires Enabled(s, a) && (a.Tick? || a.SweepPending?)
    ensures ItemWork(Next(cfg, s, a), limit) == ItemWork(s, limit)
    ensures Sweeping(Next(cfg, s, a)) == Sweeping(s) + if a.Tick? then 1 else -1
  {
    hide ReaderNext, FanInNext, FanOutNext, EngineNext, OutputNext, Correlator.Swept, Weighted, ReaderWork, FanOutWork;
  }

  /** With the source and the ticker silent, every step leaves less work. */
  lemma StepLowersWork(cfg: Config, s: Sys, a: Action)
    requires Enabled(s, a) && !External(a)
    requires s.reader.Holding? && s.reader.record.Correlated? ==> !s.reader.record.op.Sweep?
    ensures Work(Next(cfg, s, a), AlertLimit(cfg.rules)) < Work(s, AlertLimit(cfg.rules))
  {
    hide Next, Enabled, ItemWork, AlertLimit;
    if a.SweepPending? {
      CleanupKeepsItemWork(cfg, s, a, AlertLimit(cfg.rules));
    } else {
      MoveLowersItemWork(cfg, s, a);
    }
  }

  /** The source delivers nothing; the ticker goes on. */
  ghost predicate Silent(actions: seq<Action>) {
    forall a <- actions :: !a.Read?
  }

  function MoveCount(actions: seq<Action>): nat {
    if actions == [] then 0 else (if Moves(actions[0]) then 1 else 0) + MoveCount(actions[1..])
  }

  function TickCount(actions: seq<Action>): nat {
    if actions == [] then 0 else (if actions[0].Tick? then 1 else 0) + TickCount(actions[1..])
  }

  /** However the goroutines interleave, a run without new records moves work no more
      often than the work it starts with, and sweeps no more often than it ticks. */
  lemma {:induction false} SilentRunIsShort(cfg: Config, s: Sys, actions: seq<Action>)
    requires Inv(cfg, s) && Legal(cfg, s, actions) && Silent(actions)
    ensures var t, limit := Reached(cfg, s, actions), AlertLimit(cfg.rules);
      && MoveCount(actions) + ItemWork(t, limit) <= ItemWork(s, limit)
      && |actions| + Sweeping(t) == MoveCount(actions) + 2 * TickCount(actions) + Sweeping(s)
    decreases |actions|
  {
    hide Inv, Next, Enabled, ItemWork, AlertLimit, Sweeping;
    if actions != [] {
      var a := actions[0];
      assert a in actions;
      StepInv(cfg, s, a);
      HeldRecord(cfg, s);
      if Moves(a) {
        MoveLowersItemWork(cfg, s, a);
        SameSweeping(s, Next(cfg, s, a));
      } else {
        CleanupKeepsItemWork(cfg, s, a, AlertLimit(cfg.rules));
      }
      assert Silent(actions[1..]);
      SilentRunIsShort(cfg, Next(cfg, s, a), actions[1..]);
    }
  }

  lemma SameSweeping(s: Sys, t: Sys)
    requires s.sweeping == t.sweeping
    ensures Sweeping(s) == Sweeping(t)
  {}

  lemma HeldRecord(cfg: Config, s: Sys)
    requires Inv(cfg, s)
    ensures s.reader.Holding? && s.reader.record.Correlated? ==> !s.reader.record.op.Sweep?
  {
    hide CorrelatorFollows, FanOutFollows, SinksFollow;
  }

  /** Draining, with the ticker going on: after any run, once the source is silent, no
      more steps move work than there is work, however they interleave with ticks and
      sweeps; and no step can move work just when everything is printed or filtered, or
      a panic has ended the program. Without ticks the goroutines come to rest within
      the work left. */
  lemma PipelineDrains(cfg: Config, before: seq<Action>, after: seq<Action>)
    requires Legal(cfg, START, before) && Legal(cfg, Reached(cfg, START, before), after) && Silent(after)
    ensures var s, limit := Reached(cfg, START, before), AlertLimit(cfg.rules);
      var t := Reached(cfg, s, after);
      && (Emptied(t) || t.life.Dead? <==> forall a | Moves(a) :: !Enabled(t, a))
      && (Drained(t) || t.life.Dead? <==> forall a | !External(a) :: !Enabled(t, a))
      && MoveCount(after) + ItemWork(t, limit) <= ItemWork(s, limit)
      && |after| <= Work(s, limit) + 2 * TickCount(after)
  {
    hide Inv, ItemWork, AlertLimit, Mover, Enabled, Next, Emptied;
    var s := Reached(cfg, START, before);
    var t := Reached(cfg, s, after);
    StartInv(cfg);
    RunInv(cfg, START, before);
    RunInv(cfg, s, after);
    SilentRunIsShort(cfg, s, after);
    AtRest(cfg, t);
  }

  lemma AtRest(cfg: Config, t: Sys)
    requires Inv(cfg, t)
    ensures Emptied(t) || t.life.Dead? <==> forall a | Moves(a) :: !Enabled(t, a)
    ensures Drained(t) || t.life.Dead? <==> forall a | !External(a) :: !Enabled(t, a)
  {
    hide Inv, Mover, Emptied;
    forall a ensures Emptied(t) && Moves(a) ==> !Enabled(t, a) { EmptiedIsQuiet(t, a); }
    if !Drained(t) && !t.life.Dead? {
      MoverEnabled(cfg, t);
      assert Enabled(t, Mover(t));
    }
  }

  lemma EmptiedIsQuiet(s: Sys, a: Action)
    ensures Emptied(s) && Moves(a) ==> !Enabled(s, a)
  {}

  /** End to end: in every reachable emptied state, the printed events are the filtered
      and annotated events in the order they entered, the printed alerts are the alerts
      of the rule engine run over exactly these events, none of which it panics on, the
      connection events are those of the atomic correlator in accept order after the
      operations of all records read and the sweeps made, and the file and exec events
      those of all records read. */
  lemma DrainedMeansPrinted(cfg: Config, actions: seq<Action>)
    requires Legal(cfg, START, actions) && Emptied(Reached(cfg, START, actions))
    ensures var log := Reached(cfg, START, actions).log;
      && log.printedEvents == Enriched(cfg, log.entered)
      && log.printedAlerts == Engine.Run(cfg.env, cfg.rules, log.printedEvents).alerts
      && (forall e <- log.printedEvents :: !Panics(cfg, e))
      && OfKind(log.entered, true) == Correlator.After(log.ops, cfg.timeout).output
      && OpsOf(log.ops, false) == OpsRead(cfg, actions) && OpsOf(log.ops, true) == SweepsMade(actions)
      && OfKind(log.entered, false) == log.direct == EventsRead(cfg, actions)
      && Reached(cfg, START, actions).pending == Correlator.After(log.ops, cfg.timeout).pending
  {
    hide Engine.Run, Correlator.After, OfKind, Enriched, Panics, OpsOf, OpsRead, EventsRead, SweepsMade;
    var s := Reached(cfg, START, actions);
    ReadsAreKept(cfg, actions);
    StartInv(cfg);
    RunInv(cfg, START, actions);
    assert s.log.entered[..s.log.taken] == s.log.entered;
    assert s.log.processed == s.log.toEngine == s.log.toOutput == s.log.printedEvents;
    assert s.log.printedAlerts + s.alertsCh + s.unsent == s.log.printedAlerts;
  }
}
