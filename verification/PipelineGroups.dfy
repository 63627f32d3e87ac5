/** The group theorems hold of the program: whatever arrives from the kernel, the events
    the engine is given meet the conditions under which keys tell groups apart. */
module PipelineGroups {
  import opened Core
  import opened Network
  import opened Records
  import opened Rules
  import opened GroupKey
  import opened RuleIsolation
  import opened GroupRefinement
  import opened SlidingWindow
  import opened Pipeline
  import opened PipelineSafety
  import opened PipelineLiveness
  import Correlator
  import Engine
  import Tracker
  import SequenceCompleteness
  import Wire

  /** The resolver never answers with a name that holds a colon. */
  ghost predicate PlainNames(cfg: Config) {
    forall n: nat, cgroup: uint64 ::
      cfg.resolve(n, cgroup).Some? ==> ':' !in cfg.resolve(n, cgroup).value.name
  }

  predicate AllPlain(es: seq<Event>) {
    forall e <- es :: PlainAddresses(e)
  }

  ghost predicate Groupable(cfg: Config, e: Attributed) {
    PlainAddresses(e) && (PlainNames(cfg) ==> PlainContainers(e))
  }

  /** Every event on its way to the engine has plain addresses. */
  ghost predicate PlainInv(cfg: Config, s: Sys) {
    && (s.reader.Holding? && s.reader.record.Direct? ==> PlainAddresses(s.reader.record.event))
    && (s.reader.Sending? || s.reader.Forwarding? ==> PlainAddresses(s.reader.event))
    && AllPlain(s.corrOut) && (s.fanIn.Some? ==> PlainAddresses(s.fanIn.value)) && AllPlain(s.eventsCh)
    && (s.fanOut.ToOutput? || s.fanOut.ToEngine? ==> Groupable(cfg, s.fanOut.event))
    && (forall e <- s.log.toEngine :: Groupable(cfg, e))
  }

  lemma DirectIsPlain(boot: int, data: Wire.Bytes)
    ensures var r := DispatchRecord(boot, data); r.Direct? ==> PlainAddresses(r.event)
  {
    hide Wire.ParseEvent, NullTermStr, OpenFlagsToOp, KTimeToTime;
    assert ':' !in BLANK_EVENT.srcAddr && ':' !in BLANK_EVENT.dstAddr;
  }

  lemma ConnectionIsPlain(s: Sys, op: Correlator.Op)
    ensures var t := HandleOp(s, op);
      && (t.reader.Sending? ==> s.reader == t.reader || PlainAddresses(t.reader.event))
      && (t.reader == s.reader || t.reader.Reading? || t.reader.Sending?)
  {
    if op.Accept? {
      DottedQuadColonFree(op.conn.srcAddr);
      DottedQuadColonFree(op.conn.dstAddr);
    }
  }

  lemma EnrichedIsGroupable(cfg: Config, n: nat, e: Event)
    requires PlainAddresses(e)
    ensures Enrich(cfg, n, e).Some? ==> Groupable(cfg, Enrich(cfg, n, e).value)
  {
    if PlainNames(cfg) && Enrich(cfg, n, e).Some? {
      assert ':' !in cfg.resolve(2 * n, e.srcCgroupID).value.name;
      assert cfg.resolve(2 * n + 1, e.dstCgroupID).Some? ==> ':' !in cfg.resolve(2 * n + 1, e.dstCgroupID).value.name;
    }
  }

  lemma PlainStep(cfg: Config, s: Sys, a: Action)
    requires PlainInv(cfg, s) && Enabled(s, a)
    ensures PlainInv(cfg, Next(cfg, s, a))
  {
    hide DispatchRecord, Enrich, CleanupNext, EngineNext, OutputNext, HandleOp, PlainAddresses, Groupable;
    match a
    case Read(data) => DirectIsPlain(cfg.boot, data);
    case TakeRecord =>
      if s.reader.record.Correlated? {
        ConnectionIsPlain(s, s.reader.record.op);
        HandleOpKeeps(s);
      }
    case FanOutReceive => EnrichedIsGroupable(cfg, s.log.taken, s.eventsCh[0]);
    case _ =>
  }

  lemma {:induction false} PlainRun(cfg: Config, s: Sys, actions: seq<Action>)
    requires PlainInv(cfg, s) && Legal(cfg, s, actions)
    ensures PlainInv(cfg, Reached(cfg, s, actions))
    decreases |actions|
  {
    hide PlainInv, Next, Enabled;
    if actions != [] {
      PlainStep(cfg, s, actions[0]);
      PlainRun(cfg, Next(cfg, s, actions[0]), actions[1..]);
    }
  }

  /** The rule's keys tell groups apart on what this program feeds the engine. */
  ghost predicate Groups(cfg: Config, groupBy: seq<string>) {
    SRC in groupBy && DST in groupBy ==> PlainNames(cfg)
  }

  /** In every reachable state, all events given to the engine have addresses without
      colons, so every grouping by at most one container is faithful on them, and by
      both if the resolver's names hold no colon. */
  lemma EngineEventsFaithful(cfg: Config, actions: seq<Action>, groupBy: seq<string>)
    requires Legal(cfg, START, actions) && Groups(cfg, groupBy)
    ensures Faithful(groupBy, Reached(cfg, START, actions).log.toEngine)
  {
    hide Next, Enabled, PlainAddresses, PlainContainers, PlainNames;
    PlainRun(cfg, START, actions);
  }

  // The group theorems on the program's own streams

  lemma ThresholdGroupsAtEngine(cfg: Config, actions: seq<Action>, i: nat, p: nat)
    requires Legal(cfg, START, actions) && i < |cfg.rules| && StandsApart(cfg.rules, i)
    requires Engine.IsThreshold(cfg.rules[i]) && Groups(cfg, cfg.rules[i].detect.groupBy)
    requires p < |Reached(cfg, START, actions).log.toEngine|
    ensures var events, r := Reached(cfg, START, actions).log.toEngine, cfg.rules[i];
      var e, w := events[p], StatedWindow(cfg.env, r.detect.window, 10_000_000_000);
      var count := |WindowAfter(GroupTimes(cfg.env, r, events[..p + 1], e), w)|;
      ByRule(Engine.EmittedAt(cfg.env, cfg.rules, events, p), r.name)
        == OwedIf(RuleMatches(cfg.env.glob, r, e) && count > r.detect.count, r, e)
  {
    hide Next, Enabled, Groups, Faithful;
    EngineEventsFaithful(cfg, actions, cfg.rules[i].detect.groupBy);
    ThresholdRefinesGroups(cfg.env, cfg.rules, i, Reached(cfg, START, actions).log.toEngine, p);
  }

  /** Rule i is a sequence rule that stands apart and whose groups are told apart. */
  ghost predicate SequenceRule(cfg: Config, i: nat) {
    && i < |cfg.rules| && StandsApart(cfg.rules, i) && cfg.rules[i].sequence.Some?
    && Groups(cfg, Engine.SequenceGroupBy(cfg.rules[i].sequence.value))
  }

  lemma SequenceAlertAtEngine(cfg: Config, actions: seq<Action>, i: nat, p: nat) returns (k: nat, idx: seq<nat>)
    requires Legal(cfg, START, actions) && SequenceRule(cfg, i)
    requires p < |Reached(cfg, START, actions).log.toEngine|
    requires ByRule(Engine.EmittedAt(cfg.env, cfg.rules, Reached(cfg, START, actions).log.toEngine, p),
                    cfg.rules[i].name) != []
    ensures GroupChain(cfg.env, cfg.rules[i], Reached(cfg, START, actions).log.toEngine, p, k, idx)
  {
    hide Next, Enabled, Groups, Faithful, GroupChain, Engine.EmittedAt;
    EngineEventsFaithful(cfg, actions, Engine.SequenceGroupBy(cfg.rules[i].sequence.value));
    k, idx := SequenceAlertExplained(cfg.env, cfg.rules, i, Reached(cfg, START, actions).log.toEngine, p);
  }

  /** e is an event of the stream, which names the group. */
  lemma SequenceNeverMissedAtEngine(cfg: Config, actions: seq<Action>, i: nat, s: nat, pos: seq<nat>, e: Attributed)
    requires Legal(cfg, START, actions) && SequenceRule(cfg, i)
    requires var events := Reached(cfg, START, actions).log.toEngine;
      && s <= |events| && e in events && pos != []
      && GroupPicks(cfg.env, cfg.rules[i], events, e, s, pos)
      && GroupWithin(cfg.env, cfg.rules[i], events, e, s, pos[|pos| - 1] + 1)
      && !SequenceCompleteness.HalfWay(
           KeptTracker(cfg.env, cfg.rules, events[..s], Engine.SequenceKey(cfg.rules[i], e)), |pos|)
    ensures var events := Reached(cfg, START, actions).log.toEngine;
      ByRule(Engine.EmittedAt(cfg.env, cfg.rules, events, pos[|pos| - 1]), cfg.rules[i].name) != []
  {
    hide Next, Enabled, Groups, Engine.EmittedAt, KeptTracker, GroupWithin;
    EngineEventsFaithful(cfg, actions, Engine.SequenceGroupBy(cfg.rules[i].sequence.value));
    SequenceNeverMissed(cfg.env, cfg.rules, i, Reached(cfg, START, actions).log.toEngine, s, pos, e);
  }

  lemma FinishedGroupAtEngine(cfg: Config, actions: seq<Action>, i: nat, s: nat, e: Attributed, t: Tracker.Tracker)
    requires Legal(cfg, START, actions) && SequenceRule(cfg, i)
    requires var events := Reached(cfg, START, actions).log.toEngine;
      && s <= |events| && e in events && t.currentStep >= |cfg.rules[i].sequence.value.steps|
      && KeptTracker(cfg.env, cfg.rules, events[..s], Engine.SequenceKey(cfg.rules[i], e)) == Some(t)
    ensures var events := Reached(cfg, START, actions).log.toEngine;
      AlertsSince(cfg.env, cfg.rules, cfg.rules[i], events, e, s) == PairsSince(cfg.env, cfg.rules[i], events, e, s)
  {
    hide Next, Enabled, Groups, KeptTracker, AlertsSince, PairsSince;
    EngineEventsFaithful(cfg, actions, Engine.SequenceGroupBy(cfg.rules[i].sequence.value));
    FinishedGroupAlerts(cfg.env, cfg.rules, i, Reached(cfg, START, actions).log.toEngine, s, e, t);
  }

  // From kernel records to printed alerts

  /** The alerts a threshold rule owes a stream, told from the groups alone: one for
      every matching event at which a fresh window over its group counts too many. */
  function ThresholdLog(env: Engine.Env, r: Rule, events: seq<Attributed>): seq<Alert> {
    if events == [] then []
    else
      var n, w := |events| - 1, StatedWindow(env, r.detect.window, 10_000_000_000);
      var count := |WindowAfter(GroupTimes(env, r, events, events[n]), w)|;
      ThresholdLog(env, r, events[..n])
      + OwedIf(RuleMatches(env.glob, r, events[n]) && count > r.detect.count, r, events[n])
  }

  /** The alerts a rule with immediate detection owes a stream: one for every event it
      matches. */
  function ImmediateLog(env: Engine.Env, r: Rule, events: seq<Attributed>): seq<Alert> {
    if events == [] then []
    else
      var n := |events| - 1;
      ImmediateLog(env, r, events[..n]) + OwedIf(RuleMatches(env.glob, r, events[n]), r, events[n])
  }

  lemma {:induction false} ThresholdLogOfRun(env: Engine.Env, rules: seq<Rule>, i: nat, events: seq<Attributed>)
    requires i < |rules| && StandsApart(rules, i) && Engine.IsThreshold(rules[i])
    requires Faithful(rules[i].detect.groupBy, events)
    ensures ByRule(Engine.Run(env, rules, events).alerts, rules[i].name) == ThresholdLog(env, rules[i], events)
  {
    hide RuleMatches, Engine.EmittedAt, GroupTimes, WindowAfter, StatedWindow, OwedIf;
    if events == [] {
      RunOfNothing(env, rules);
    } else {
      var n := |events| - 1;
      ThresholdLogOfRun(env, rules, i, events[..n]);
      RunAlerts(env, rules, events, rules[i].name);
      ThresholdRefinesGroups(env, rules, i, events, n);
      assert events[..n + 1] == events;
    }
  }

  lemma {:induction false} ImmediateLogOfRun(env: Engine.Env, rules: seq<Rule>, i: nat, events: seq<Attributed>)
    requires i < |rules| && StandsApart(rules, i)
    requires rules[i].sequence.None? && rules[i].detect.mode != "threshold"
    ensures ByRule(Engine.Run(env, rules, events).alerts, rules[i].name) == ImmediateLog(env, rules[i], events)
  {
    hide RuleMatches, Engine.EmittedAt, OwedIf;
    if events == [] {
      RunOfNothing(env, rules);
    } else {
      var n := |events| - 1;
      ImmediateLogOfRun(env, rules, i, events[..n]);
      RunAlerts(env, rules, events, rules[i].name);
      ImmediateRefines(env, rules, i, events, n);
    }
  }

  /** End to end: once the pipeline is emptied, the printed alerts of a threshold rule are
      exactly those its groups owe the printed events, in order, whatever the records,
      the interleaving and the other rules. */
  lemma PrintedThresholdAlerts(cfg: Config, actions: seq<Action>, i: nat)
    requires Legal(cfg, START, actions) && Emptied(Reached(cfg, START, actions))
    requires i < |cfg.rules| && StandsApart(cfg.rules, i)
    requires Engine.IsThreshold(cfg.rules[i]) && Groups(cfg, cfg.rules[i].detect.groupBy)
    ensures var log := Reached(cfg, START, actions).log;
      ByRule(log.printedAlerts, cfg.rules[i].name) == ThresholdLog(cfg.env, cfg.rules[i], log.printedEvents)
  {
    hide Next, Enabled, Groups, ThresholdLog, Engine.Run, Bounded, LockHeld, CorrelatorFollows, DirectFollows;
    hide AlertsFollow, Faithful;
    var s := Reached(cfg, START, actions);
    DrainedMeansPrinted(cfg, actions);
    StartInv(cfg);
    RunInv(cfg, START, actions);
    assert s.log.printedEvents == s.log.toOutput == s.log.toEngine;
    EngineEventsFaithful(cfg, actions, cfg.rules[i].detect.groupBy);
    ThresholdLogOfRun(cfg.env, cfg.rules, i, s.log.printedEvents);
  }

  /** And those of a rule with immediate detection are one for each printed event it
      matches. */
  lemma PrintedImmediateAlerts(cfg: Config, actions: seq<Action>, i: nat)
    requires Legal(cfg, START, actions) && Emptied(Reached(cfg, START, actions))
    requires i < |cfg.rules| && StandsApart(cfg.rules, i)
    requires cfg.rules[i].sequence.None? && cfg.rules[i].detect.mode != "threshold"
    ensures var log := Reached(cfg, START, actions).log;
      ByRule(log.printedAlerts, cfg.rules[i].name) == ImmediateLog(cfg.env, cfg.rules[i], log.printedEvents)
  {
    hide Next, Enabled, ImmediateLog, Engine.Run, Enriched, OfKind, Correlator.After;
    DrainedMeansPrinted(cfg, actions);
    ImmediateLogOfRun(cfg.env, cfg.rules, i, Reached(cfg, START, actions).log.printedEvents);
  }
}
