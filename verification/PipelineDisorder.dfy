/** How far out of time order connection events reach the engine, and what that does to
    the threshold rules that count them. */
module PipelineDisorder {
  import opened Core
  import opened Rules
  import opened RuleIsolation
  import opened GroupRefinement
  import opened GroupDisorder
  import opened SequenceDisorder
  import opened SlidingWindow
  import opened CorrelatorDisorder
  import opened Pipeline
  import opened PipelineSafety
  import opened PipelineGroups
  import Correlator
  import Engine

  /** The connection events among these are out of order by at most d. */
  ghost predicate ConnectionDisorder(es: seq<Event>, d: nat) {
    forall i, j | 0 <= i < j < |es| && es[i].eventType == "connection" && es[j].eventType == "connection" ::
      es[j].timestamp >= es[i].timestamp - d
  }

  lemma {:induction false} OfKindHas(es: seq<Event>, i: nat) returns (q: nat)
    requires i < |es| && es[i].eventType == "connection"
    ensures q < |OfKind(es, true)| && OfKind(es, true)[q] == es[i]
  {
    var n := |es| - 1;
    if i < n {
      q := OfKindHas(es[..n], i);
    } else {
      q := |OfKind(es[..n], true)|;
    }
  }

  lemma {:induction false} OfKindDisorder(es: seq<Event>, d: nat)
    requires Disorder(EventTimes(OfKind(es, true)), d)
    ensures ConnectionDisorder(es, d)
  {
    if es != [] {
      var n := |es| - 1;
      var before, all := OfKind(es[..n], true), OfKind(es, true);
      assert forall a | 0 <= a < |before| :: EventTimes(before)[a] == EventTimes(all)[a];
      OfKindDisorder(es[..n], d);
      forall i, j | 0 <= i < j < |es| && es[i].eventType == "connection" && es[j].eventType == "connection"
        ensures es[j].timestamp >= es[i].timestamp - d
      {
        if j < n {
          assert es[..n][j].timestamp >= es[..n][i].timestamp - d;
        } else {
          var q := OfKindHas(es[..n], i);
          assert EventTimes(all)[|before|] >= EventTimes(all)[q] - d;
        }
      }
    }
  }

  /** What entered the merged channel: its connection events are the correlator's. */
  lemma EnteredDisorder(cfg: Config, s: Sys, clock: seq<int>, delay: nat, period: nat)
    requires CorrelatorFollows(cfg, s) && Clocked(s.log.ops, clock, delay, period) && cfg.timeout < MAX_DURATION
    ensures ConnectionDisorder(s.log.entered, Lag(cfg.timeout, delay, period))
  {
    hide Clocked, Lag, OfKind, Correlator.After;
    var d := Lag(cfg.timeout, delay, period);
    OutputDisorder(s.log.ops, clock, cfg.timeout, delay, period);
    var sent, all := OfKind(s.log.entered, true), FromCorrelator(s);
    forall i, j | 0 <= i < j < |sent| ensures EventTimes(sent)[j] >= EventTimes(sent)[i] - d {
      assert sent[i] == all[i] && sent[j] == all[j];
      assert EventTimes(all)[j] >= EventTimes(all)[i] - d;
    }
    OfKindDisorder(s.log.entered, d);
  }

  lemma FilterKeepsDisorder(cfg: Config, es: seq<Event>, d: nat)
    requires ConnectionDisorder(es, d)
    ensures ConnectionDisorder(Enriched(cfg, es), d)
  {
    hide Enriched, Passes;
    var kept := EnrichedIsFilter(cfg, es);
    forall i, j | 0 <= i < j < |kept| && Enriched(cfg, es)[i].eventType == "connection"
                  && Enriched(cfg, es)[j].eventType == "connection"
      ensures Enriched(cfg, es)[j].timestamp >= Enriched(cfg, es)[i].timestamp - d
    {
      assert es[kept[j]].timestamp >= es[kept[i]].timestamp - d;
    }
  }

  lemma PrefixDisorder(es: seq<Event>, n: nat, d: nat)
    requires ConnectionDisorder(es, d) && n <= |es|
    ensures ConnectionDisorder(es[..n], d)
  {}

  /** In every reachable state the connection events given to the engine are out of time
      order by at most the lag: the sweep period, and the timeout or the delay of the
      records, whichever is longer. */
  lemma EngineDisorder(cfg: Config, actions: seq<Action>, clock: seq<int>, delay: nat, period: nat)
    requires Legal(cfg, START, actions) && cfg.timeout < MAX_DURATION
    requires Clocked(Reached(cfg, START, actions).log.ops, clock, delay, period)
    ensures ConnectionDisorder(Reached(cfg, START, actions).log.toEngine, Lag(cfg.timeout, delay, period))
  {
    hide Next, Enabled, Clocked, Lag, CorrelatorFollows, DirectFollows, Bounded, LockHeld, SinksFollow;
    hide Enriched, ConnectionDisorder;
    var s, d := Reached(cfg, START, actions), Lag(cfg.timeout, delay, period);
    StartInv(cfg);
    RunInv(cfg, START, actions);
    EnteredDisorder(cfg, s, clock, delay, period);
    PrefixDisorder(s.log.entered, s.log.taken, d);
    var all := Enriched(cfg, s.log.entered[..s.log.taken]);
    FilterKeepsDisorder(cfg, s.log.entered[..s.log.taken], d);
    PrefixDisorder(all, |s.log.toEngine|, d);
    assert all[..|s.log.toEngine|] == s.log.toEngine;
  }

  /** The rule counts connections only. */
  ghost predicate ConnectionsOnly(env: Engine.Env, r: Rule) {
    forall e: Event | RuleMatches(env.glob, r, e) :: e.eventType == "connection"
  }

  /** The cause of miscounts and their size: the count by which a connection rule is
      judged lies between the group's connections inside the window behind its largest
      timestamp and those no older than the window and the lag behind the event. */
  lemma ConnectionCountBounds(cfg: Config, actions: seq<Action>, clock: seq<int>, delay: nat, period: nat,
                              r: Rule, p: nat)
    requires Legal(cfg, START, actions) && cfg.timeout < MAX_DURATION
    requires Clocked(Reached(cfg, START, actions).log.ops, clock, delay, period)
    requires var events := Reached(cfg, START, actions).log.toEngine;
      p < |events| && RuleMatches(cfg.env.glob, r, events[p])
    requires ConnectionsOnly(cfg.env, r) && Engine.ThresholdSize(cfg.env, r) < MAX_DURATION
    ensures var events, w := Reached(cfg, START, actions).log.toEngine, Engine.ThresholdSize(cfg.env, r);
      var times := GroupTimes(cfg.env, r, events[..p + 1], events[p]);
      && times != []
      && CountSince(times, MaxSeen(times) - w) <= |WindowAfter(times, w)|
      && |WindowAfter(times, w)| <= CountSince(times, events[p].timestamp - w - Lag(cfg.timeout, delay, period))
  {
    hide Next, Enabled, Clocked, Lag, RuleMatches, WindowAfter, CountSince, MaxSeen, GroupTimes;
    var events, d := Reached(cfg, START, actions).log.toEngine, Lag(cfg.timeout, delay, period);
    EngineDisorder(cfg, actions, clock, delay, period);
    assert MatchDisorder(cfg.env, r, events, d);
    GroupCountBounds(cfg.env, r, events, p, d);
  }

  /** Every step of the sequence matches connections only. */
  ghost predicate ConnectionSteps(env: Engine.Env, s: SequenceConfig) {
    forall m, e: Event | m in s.steps && BlockMatches(env.glob, m, e) :: e.eventType == "connection"
  }

  /** A sequence rule over connections whose window covers the lag raises no alert for
      events that are further apart than the window. */
  lemma ConnectionAlertsNear(cfg: Config, actions: seq<Action>, clock: seq<int>, delay: nat, period: nat,
                             i: nat, p: nat)
    requires Legal(cfg, START, actions) && cfg.timeout < MAX_DURATION
    requires Clocked(Reached(cfg, START, actions).log.ops, clock, delay, period)
    requires SequenceRule(cfg, i) && ConnectionSteps(cfg.env, cfg.rules[i].sequence.value)
    requires Lag(cfg.timeout, delay, period) <= Engine.SequenceSize(cfg.env, cfg.rules[i].sequence.value) < MAX_DURATION
    requires p < |Reached(cfg, START, actions).log.toEngine|
    requires ByRule(Engine.EmittedAt(cfg.env, cfg.rules, Reached(cfg, START, actions).log.toEngine, p),
                    cfg.rules[i].name) != []
    ensures HasNearGroupChain(cfg.env, cfg.rules[i], Reached(cfg, START, actions).log.toEngine, p,
                              Engine.SequenceSize(cfg.env, cfg.rules[i].sequence.value))
  {
    hide Next, Enabled, Clocked, Lag, BlockMatches, Engine.EmittedAt, Groups;
    var events, r, d := Reached(cfg, START, actions).log.toEngine, cfg.rules[i], Lag(cfg.timeout, delay, period);
    var w := Engine.SequenceSize(cfg.env, r.sequence.value);
    EngineDisorder(cfg, actions, clock, delay, period);
    var k, idx := SequenceAlertAtEngine(cfg, actions, i, p);
    forall j | 1 <= j < |idx| ensures events[idx[j]].timestamp >= events[idx[0]].timestamp - d {
      assert GroupStep(cfg.env, r, events[p], events[idx[0]], k + 0);
      assert GroupStep(cfg.env, r, events[p], events[idx[j]], k + j);
      assert events[idx[0]].eventType == "connection" && events[idx[j]].eventType == "connection";
    }
    CoveredIsNear(cfg.env, r, events, p, d, k, idx);
    assert NearGroupChain(cfg.env, r, events, p, w, k, idx);
  }
}
