/** The pipeline around an engine whose tracker map is nil, as `New` leaves it and main
    uses it: when the program panics, and what it prints until then. */
module PipelinePanic {
  import opened Core
  import opened Rules
  import opened RuleIsolation
  import opened GroupRefinement
  import opened Pipeline
  import opened PipelineSafety
  import opened PipelineLiveness
  import Engine

  /** The panic strikes at the first event that reaches a nil tracker map: none of the
      events the engine has finished does, and what it has sent are their alerts and
      those the earlier rules raised on the event it panics on. */
  lemma PanicAtFirstTouch(cfg: Config, actions: seq<Action>)
    requires Legal(cfg, START, actions)
    ensures var s := Reached(cfg, START, actions);
      && (forall e <- s.log.processed :: !Panics(cfg, e))
      && (!s.life.Alive? ==>
            && Panics(cfg, s.life.event)
            && s.log.toEngine == s.log.processed + [s.life.event] + s.engineCh
            && var run := Engine.Run(cfg.env, cfg.rules, s.log.processed);
               s.log.printedAlerts + s.alertsCh + s.unsent
                 == run.alerts + Engine.SentBeforePanic(cfg.env, cfg.rules, s.life.event, run.state))
  {
    hide Bounded, LockHeld, CorrelatorFollows, DirectFollows, FanOutFollows, Next, Enabled, Panics, Engine.Run;
    hide Engine.SentBeforePanic;
    StartInv(cfg);
    RunInv(cfg, START, actions);
  }

  /** A program come to rest has panicked exactly if some event given to the engine
      touches a nil tracker map; otherwise it has printed everything. */
  lemma RestsDeadIff(cfg: Config, actions: seq<Action>)
    requires Legal(cfg, START, actions)
    requires forall a | Moves(a) :: !Enabled(Reached(cfg, START, actions), a)
    ensures var s := Reached(cfg, START, actions);
      && (s.life.Dead? <==> exists e <- s.log.toEngine :: Panics(cfg, e))
      && (s.life.Dead? || Emptied(s))
  {
    hide Bounded, LockHeld, CorrelatorFollows, DirectFollows, FanOutFollows, AlertsFollow, Next, Enabled, Panics;
    var s := Reached(cfg, START, actions);
    StartInv(cfg);
    RunInv(cfg, START, actions);
    AtRest(cfg, s);
    if s.life.Dead? { assert s.life.event in s.log.toEngine; }
  }

  lemma {:induction false} QuietRulesRaiseNothing(env: Engine.Env, rules: seq<Rule>, e: Attributed,
                                                  st: Engine.State, name: string, n: nat)
    requires SequencesOnly(rules, name) && n <= Engine.QuietRules(env, rules, e)
    ensures ByRule(Engine.ProcessFirst(env, rules, e, st, n).alerts, name) == []
  {
    hide Engine.RuleStep, Engine.TouchedBy;
    if n > 0 {
      QuietRulesRaiseNothing(env, rules, e, st, name, n - 1);
      QuietRuleStep(env, rules, e, Engine.ProcessFirst(env, rules, e, st, n - 1), name, n - 1);
    }
  }

  /** The program as main starts it never alerts on a sequence: with the tracker map
      nil, no reachable state has printed, or will print, an alert under a name that
      only sequence rules carry. */
  lemma NilMapNeverAlerts(cfg: Config, actions: seq<Action>, name: string)
    requires Legal(cfg, START, actions) && !cfg.trackersMade && SequencesOnly(cfg.rules, name)
    ensures var s := Reached(cfg, START, actions);
      ByRule(s.log.printedAlerts + s.alertsCh + s.unsent, name) == []
  {
    hide Bounded, LockHeld, CorrelatorFollows, DirectFollows, FanOutFollows, Next, Enabled, ByRule;
    hide Engine.Run, Engine.ProcessFirst, Engine.TouchesTrackers;
    var s := Reached(cfg, START, actions);
    var run := Engine.Run(cfg.env, cfg.rules, s.log.processed);
    StartInv(cfg);
    RunInv(cfg, START, actions);
    forall p | 0 <= p < |s.log.processed| ensures !Engine.TouchesTrackers(cfg.env, cfg.rules, s.log.processed[p]) {
      assert !Panics(cfg, s.log.processed[p]);
    }
    UntouchedSequencesAreSilent(cfg.env, cfg.rules, s.log.processed, name);
    if s.life.Alive? {
      assert run.alerts + [] == run.alerts;
    } else {
      var n := Engine.QuietRules(cfg.env, cfg.rules, s.life.event);
      QuietRulesRaiseNothing(cfg.env, cfg.rules, s.life.event, s.engine, name, n);
      ByRuleConcat(run.alerts, SentOnPanic(cfg, s), name);
    }
  }
}
