/** What the pipeline works on is what was read: every record becomes its operation or
    its event, in the order of the reads, and every sweep is one that was made. */
module PipelineSource {
  import opened Core
  import opened Records
  import opened Pipeline
  import opened PipelineSafety
  import Correlator

  // Told from the actions alone

  /** The operation of the record an action reads, if it does. */
  function OpRead(cfg: Config, a: Action): seq<Correlator.Op> {
    if !a.Read? then []
    else
      match DispatchRecord(cfg.boot, a.data)
      case Correlated(op) => [op]
      case _ => []
  }

  /** The file or exec event of the record an action reads, if it does. */
  function EventRead(cfg: Config, a: Action): seq<Event> {
    if !a.Read? then []
    else
      match DispatchRecord(cfg.boot, a.data)
      case Direct(e) => [e]
      case _ => []
  }

  function SweepMade(a: Action): seq<Correlator.Op> {
    if a.SweepPending? then [Correlator.Sweep(a.now)] else []
  }

  /** The operations of the records read, in order. */
  function OpsRead(cfg: Config, actions: seq<Action>): seq<Correlator.Op> {
    if actions == [] then [] else OpRead(cfg, actions[0]) + OpsRead(cfg, actions[1..])
  }

  /** The file and exec events of the records read, in order. */
  function EventsRead(cfg: Config, actions: seq<Action>): seq<Event> {
    if actions == [] then [] else EventRead(cfg, actions[0]) + EventsRead(cfg, actions[1..])
  }

  /** The sweeps made, in order. */
  function SweepsMade(actions: seq<Action>): seq<Correlator.Op> {
    if actions == [] then [] else SweepMade(actions[0]) + SweepsMade(actions[1..])
  }

  /** The sweeps among the operations, or the others. */
  function OpsOf(ops: seq<Correlator.Op>, sweeps: bool): seq<Correlator.Op> {
    if ops == [] then []
    else
      var n := |ops| - 1;
      OpsOf(ops[..n], sweeps) + if ops[n].Sweep? == sweeps then [ops[n]] else []
  }

  lemma OpsOfAppend(ops: seq<Correlator.Op>, op: Correlator.Op, sweeps: bool)
    ensures OpsOf(ops + [op], sweeps) == OpsOf(ops, sweeps) + if op.Sweep? == sweeps then [op] else []
  {
    assert (ops + [op])[..|ops|] == ops;
  }

  // What the pipeline has done with them

  /** The operation in the reader's hands. */
  function HeldOp(s: Sys): seq<Correlator.Op> {
    if s.reader.Holding? && s.reader.record.Correlated? then [s.reader.record.op] else []
  }

  function HeldEvent(s: Sys): seq<Event> {
    if s.reader.Holding? && s.reader.record.Direct? then [s.reader.record.event] else []
  }

  function SourceOps(s: Sys): seq<Correlator.Op> {
    OpsOf(s.log.ops, false) + HeldOp(s)
  }

  function SourceEvents(s: Sys): seq<Event> {
    s.log.direct + HeldEvent(s)
  }

  /** From s to t these operations, events and sweeps came in. */
  predicate CameIn(s: Sys, t: Sys, ops: seq<Correlator.Op>, events: seq<Event>, sweeps: seq<Correlator.Op>) {
    && SourceOps(t) == SourceOps(s) + ops
    && SourceEvents(t) == SourceEvents(s) + events
    && OpsOf(t.log.ops, true) == OpsOf(s.log.ops, true) + sweeps
  }

  lemma CameInBoth(s: Sys, m: Sys, t: Sys, ops: seq<Correlator.Op>, events: seq<Event>, sweeps: seq<Correlator.Op>,
                   ops': seq<Correlator.Op>, events': seq<Event>, sweeps': seq<Correlator.Op>)
    requires CameIn(s, m, ops, events, sweeps) && CameIn(m, t, ops', events', sweeps')
    ensures CameIn(s, t, ops + ops', events + events', sweeps + sweeps')
  {
    hide SourceOps, SourceEvents, OpsOf;
  }

  lemma CameInNothing(s: Sys)
    ensures CameIn(s, s, [], [], [])
  {
    hide SourceOps, SourceEvents, OpsOf;
  }

  /** A record leaves the reader's hands. */
  lemma TakeReads(cfg: Config, s: Sys)
    requires Enabled(s, TakeRecord) && DirectFollows(s)
    ensures CameIn(s, ReaderNext(cfg, s, TakeRecord), [], [], [])
  {
    hide OfKind, OpsOf;
    if s.reader.record.Correlated? {
      OpsOfAppend(s.log.ops, s.reader.record.op, true);
      OpsOfAppend(s.log.ops, s.reader.record.op, false);
    }
  }

  lemma ReaderReads(cfg: Config, s: Sys, a: Action)
    requires Enabled(s, a) && OfReader(a) && !a.TakeRecord?
    ensures CameIn(s, ReaderNext(cfg, s, a), OpRead(cfg, a), EventRead(cfg, a), [])
  {
    hide HandleOp, DispatchRecord, OpsOf;
  }

  lemma CleanupReads(cfg: Config, s: Sys, a: Action)
    requires Enabled(s, a) && OfCleanup(a)
    ensures CameIn(s, CleanupNext(cfg, s, a), [], [], SweepMade(a))
  {
    hide OpsOf;
    if a.SweepPending? {
      OpsOfAppend(s.log.ops, Correlator.Sweep(a.now), true);
      OpsOfAppend(s.log.ops, Correlator.Sweep(a.now), false);
    }
  }

  lemma SameReads(s: Sys, t: Sys)
    requires t.reader == s.reader && t.log.ops == s.log.ops && t.log.direct == s.log.direct
    ensures CameIn(s, t, [], [], [])
  {
    hide OpsOf;
  }

  lemma StepReads(cfg: Config, s: Sys, a: Action)
    requires DirectFollows(s) && Enabled(s, a)
    ensures CameIn(s, Next(cfg, s, a), OpRead(cfg, a), EventRead(cfg, a), SweepMade(a))
  {
    hide DispatchRecord, ReaderNext, CleanupNext, FanInNext, FanOutNext, EngineNext, OutputNext, CameIn, DirectFollows;
    if a.TakeRecord? {
      TakeReads(cfg, s);
    } else if OfReader(a) {
      ReaderReads(cfg, s, a);
    } else if OfCleanup(a) {
      CleanupReads(cfg, s, a);
    } else {
      SameReads(s, Next(cfg, s, a));
    }
  }

  lemma {:induction false} RunReads(cfg: Config, s: Sys, actions: seq<Action>)
    requires Inv(cfg, s) && Legal(cfg, s, actions)
    ensures CameIn(s, Reached(cfg, s, actions), OpsRead(cfg, actions), EventsRead(cfg, actions), SweepsMade(actions))
    decreases |actions|
  {
    hide CorrelatorFollows, DirectFollows, FanOutFollows, SinksFollow, Bounded, LockHeld, Next, Enabled, CameIn;
    hide OpRead, EventRead, SweepMade;
    if actions == [] {
      CameInNothing(s);
    } else {
      var a, rest, m := actions[0], actions[1..], Next(cfg, s, actions[0]);
      StepInv(cfg, s, a);
      StepReads(cfg, s, a);
      RunReads(cfg, m, rest);
      CameInBoth(s, m, Reached(cfg, m, rest), OpRead(cfg, a), EventRead(cfg, a), SweepMade(a),
                 OpsRead(cfg, rest), EventsRead(cfg, rest), SweepsMade(rest));
    }
  }

  /** In every reachable state, the operations on the correlator other than sweeps,
      followed by one still held, are those of the records read, in order; so are the
      file and exec events; and the sweeps are those made. */
  lemma ReadsAreKept(cfg: Config, actions: seq<Action>)
    requires Legal(cfg, START, actions)
    ensures var s := Reached(cfg, START, actions);
      && OpsOf(s.log.ops, false) + HeldOp(s) == OpsRead(cfg, actions)
      && s.log.direct + HeldEvent(s) == EventsRead(cfg, actions)
      && OpsOf(s.log.ops, true) == SweepsMade(actions)
  {
    hide Inv, Next, Enabled, OpsRead, EventsRead, SweepsMade;
    StartInv(cfg);
    RunReads(cfg, START, actions);
  }
}
