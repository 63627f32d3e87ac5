/** The rule engine (internal/ruleengine/engine.go, internal/ruleengine/sequence.go):
    every rule is run over every event and keeps its state under string keys. */
module Engine {
  import opened Core
  import opened Rules
  import opened GroupKey
  import opened SlidingWindow
  import opened Tracker

  /** The library calls the engine depends on: `path.Match` and `time.ParseDuration`. */
  datatype Env = Env(glob: Glob, parseDuration: string -> Option<Duration>)

  datatype State = State(thresholds: map<string, Window>, trackers: map<string, Tracker>)

  const EMPTY := State(map[], map[])

  datatype Outcome = Outcome(state: State, alerts: seq<Alert>)

  // What one event does, rule by rule

  function AlertFor(r: Rule, e: Event): Alert {
    Alert(e.timestamp, r.name, r.severity, r.description, e.srcContainer, e.dstContainer)
  }

  function DurationOr(env: Env, text: string, default: Duration): Duration {
    match env.parseDuration(text)
    case Some(d) => d
    case None => default
  }

  function ThresholdSize(env: Env, r: Rule): Duration {
    DurationOr(env, r.detect.window, 10 * SECOND)
  }

  function ThresholdKey(r: Rule, e: Attributed): string {
    Key(r.name, r.detect.groupBy, e)
  }

  function ThresholdStep(env: Env, r: Rule, e: Attributed, st: State): (o: Outcome)
    ensures o.state.trackers == st.trackers
  {
    var key := ThresholdKey(r, e);
    var th := ValueOr(st.thresholds, key, Window([], ThresholdSize(env, r), r.detect.count));
    var counted := AddTo(th, e.timestamp);
    Outcome(st.(thresholds := st.thresholds[key := counted]),
            if |counted.times| > r.detect.count then [AlertFor(r, e)] else [])
  }

  function SequenceSize(env: Env, s: SequenceConfig): Duration {
    DurationOr(env, s.window, 5 * SECOND)
  }

  function SequenceGroupBy(s: SequenceConfig): seq<string> {
    if |s.groupBy| == 0 then [SRC] else s.groupBy
  }

  function SequenceKey(r: Rule, e: Attributed): string
    requires r.sequence.Some?
  {
    Key(r.name, SequenceGroupBy(r.sequence.value), e)
  }

  function ObsOf(env: Env, s: SequenceConfig, e: Event): Obs {
    Obs(e.timestamp, seq(|s.steps|, j requires 0 <= j < |s.steps| => BlockMatches(env.glob, s.steps[j], e)))
  }

  /** The group's value, or the one it starts from. */
  function ValueOr<V>(m: map<string, V>, key: string, fallback: V): V {
    if key in m then m[key] else fallback
  }

  function Lookup<V>(m: map<string, V>, key: string): Option<V> {
    if key in m then Some(m[key]) else None
  }

  function Store<V>(m: map<string, V>, key: string, v: Option<V>): map<string, V> {
    if v.Some? then m[key := v.value] else m
  }

  function Repeat(a: Alert, n: nat): seq<Alert> {
    seq(n, _ => a)
  }

  function SequenceStep(env: Env, r: Rule, e: Attributed, st: State): (o: Outcome)
    requires r.sequence.Some?
    ensures o.state.thresholds == st.thresholds
  {
    var s, key := r.sequence.value, SequenceKey(r, e);
    var p := Observe(Lookup(st.trackers, key), ObsOf(env, s, e), SequenceSize(env, s));
    Outcome(st.(trackers := Store(st.trackers, key, p.tracker)), Repeat(AlertFor(r, e), p.alerts))
  }

  lemma StoreStep(before: map<string, Tracker>, key: string, p: Progress, obs: Obs, w: Duration, i: nat)
    requires i < |obs.hits| && obs.hits[i] && (p.tracker.None? ==> key !in before)
    ensures var now, q := Store(before, key, p.tracker), VisitStep(p, obs, w, i);
      var t := Advance(ValueOr(now, key, TrackerState(i, [obs.time], w)), i, obs.time);
      && now[key := t] == Store(before, key, q.tracker)
      && q.alerts - p.alerts == if t.currentStep >= |obs.hits| then 1 else 0
  {}

  predicate IsThreshold(r: Rule) {
    r.sequence.None? && r.detect.mode == "threshold"
  }

  function RuleStep(env: Env, r: Rule, e: Attributed, st: State): Outcome {
    if r.sequence.Some? then SequenceStep(env, r, e, st)
    else if !RuleMatches(env.glob, r, e) then Outcome(st, [])
    else if r.detect.mode == "threshold" then ThresholdStep(env, r, e, st)
    else Outcome(st, [AlertFor(r, e)])
  }

  /** The first i rules over one event. */
  function ProcessFirst(env: Env, rules: seq<Rule>, e: Attributed, st: State, i: nat): Outcome
    requires i <= |rules|
  {
    if i == 0 then Outcome(st, [])
    else
      var before := ProcessFirst(env, rules, e, st, i - 1);
      var step := RuleStep(env, rules[i - 1], e, before.state);
      Outcome(step.state, before.alerts + step.alerts)
  }

  function Process(env: Env, rules: seq<Rule>, e: Attributed, st: State): Outcome {
    ProcessFirst(env, rules, e, st, |rules|)
  }

  /** The state and the alert log of an engine that starts empty. */
  function Run(env: Env, rules: seq<Rule>, events: seq<Attributed>): Outcome {
    if events == [] then Outcome(EMPTY, [])
    else
      var n := |events| - 1;
      var before := Run(env, rules, events[..n]);
      var step := Process(env, rules, events[n], before.state);
      Outcome(step.state, before.alerts + step.alerts)
  }

  /** The alerts the event at position p raises. */
  function EmittedAt(env: Env, rules: seq<Rule>, events: seq<Attributed>, p: nat): seq<Alert>
    requires p < |events|
  {
    Process(env, rules, events[p], Run(env, rules, events[..p]).state).alerts
  }

  /** The rule is a sequence rule with a step that matches the event. */
  predicate TouchedBy(env: Env, r: Rule, e: Event) {
    r.sequence.Some? && AnyHit(ObsOf(env, r.sequence.value, e))
  }

  predicate TouchesTrackers(env: Env, rules: seq<Rule>, e: Event) {
    exists i | 0 <= i < |rules| :: TouchedBy(env, rules[i], e)
  }

  /** How many rules the event passes before one whose step it matches. */
  function QuietRules(env: Env, rules: seq<Rule>, e: Event): (i: nat)
    ensures i <= |rules| && (i < |rules| ==> TouchedBy(env, rules[i], e))
    ensures forall j | 0 <= j < i :: !TouchedBy(env, rules[j], e)
  {
    if rules == [] || TouchedBy(env, rules[0], e) then 0 else 1 + QuietRules(env, rules[1..], e)
  }

  /** What the rules before the one that touches a nil tracker map have sent. */
  function SentBeforePanic(env: Env, rules: seq<Rule>, e: Attributed, st: State): seq<Alert> {
    ProcessFirst(env, rules, e, st, QuietRules(env, rules, e)).alerts
  }

  /** Every event touches the tracker map under a rule that has a step without
      constraints, so an engine from `New` panics on it. */
  lemma BlankStepTouches(env: Env, rules: seq<Rule>, i: nat, e: Attributed)
    requires i < |rules| && rules[i].sequence.Some? && BLANK_BLOCK in rules[i].sequence.value.steps
    ensures TouchesTrackers(env, rules, e)
  {
    var s := rules[i].sequence.value;
    var j :| 0 <= j < |s.steps| && s.steps[j] == BLANK_BLOCK;
    assert BlockMatches(env.glob, BLANK_BLOCK, e);
    assert ObsOf(env, s, e).hits[j];
    assert TouchedBy(env, rules[i], e);
  }

  class RuleEngine {
    const env: Env
    const rules: seq<Rule>
    var thresholds: map<string, ThresholdWindow>
    var trackers: map<string, SequenceTracker>
    /** Whether the tracker map has been made; writing to a nil map panics. */
    var trackersMade: bool
    /** Everything sent on the alert channel so far. */
    var alerts: seq<Alert>
    ghost var windowRepr: set<ThresholdWindow>
    ghost var trackerRepr: set<SequenceTracker>

    /** No two groups share a window. */
    ghost predicate DistinctWindows()
      reads `thresholds, `windowRepr
    {
      && (forall k | k in thresholds :: thresholds[k] in windowRepr)
      && (forall k, l | k in thresholds && l in thresholds && k != l :: thresholds[k] != thresholds[l])
    }

    ghost predicate ValidTrackers()
      reads `trackers, `trackerRepr, trackerRepr
    {
      && (forall k | k in trackers :: trackers[k] in trackerRepr && trackers[k].Valid())
      && (forall k, l | k in trackers && l in trackers && k != l :: trackers[k] != trackers[l])
    }

    ghost predicate Valid()
      reads `thresholds, `trackers, `trackersMade, `windowRepr, `trackerRepr, trackerRepr
    {
      DistinctWindows() && ValidTrackers() && (!trackersMade ==> trackers == map[])
    }

    ghost function Windows(): map<string, Window>
      reads `thresholds, `windowRepr, windowRepr
      requires DistinctWindows()
    {
      map k | k in thresholds :: thresholds[k].Value()
    }

    ghost function Trackers(): map<string, Tracker>
      reads `trackers, `trackerRepr, trackerRepr
      requires ValidTrackers()
    {
      map k | k in trackers :: trackers[k].Value()
    }

    ghost function Abstract(): State
      reads `thresholds, `trackers, `windowRepr, `trackerRepr, windowRepr, trackerRepr
      requires DistinctWindows() && ValidTrackers()
    {
      State(Windows(), Trackers())
    }

    /** `New` makes the threshold map but leaves the tracker map nil. */
    constructor New(env: Env, rules: seq<Rule>)
      ensures Valid() && Abstract() == EMPTY && !trackersMade && alerts == []
      ensures windowRepr == {} && trackerRepr == {}
      ensures this.env == env && this.rules == rules
    {
      this.env, this.rules := env, rules;
      thresholds, trackers, trackersMade, alerts := map[], map[], false, [];
      windowRepr, trackerRepr := {}, {};
    }

    /** An engine whose tracker map has been made. */
    constructor Initialised(env: Env, rules: seq<Rule>)
      ensures Valid() && Abstract() == EMPTY && trackersMade && alerts == []
      ensures windowRepr == {} && trackerRepr == {}
      ensures this.env == env && this.rules == rules
    {
      this.env, this.rules := env, rules;
      thresholds, trackers, trackersMade, alerts := map[], map[], true, [];
      windowRepr, trackerRepr := {}, {};
    }

    method EmitAlert(alert: Alert)
      modifies `alerts
      ensures alerts == old(alerts) + [alert]
    {
      alerts := alerts + [alert];
    }

    /** The group's window, made on first use. */
    method FindWindow(key: string, size: Duration, threshold: int) returns (th: ThresholdWindow)
      requires DistinctWindows()
      modifies `thresholds, `windowRepr
      ensures DistinctWindows() && key in thresholds && thresholds[key] == th
      ensures Windows() == Store(old(Windows()), key, Some(ValueOr(old(Windows()), key, Window([], size, threshold))))
      ensures fresh(windowRepr - old(windowRepr))
    {
      if key !in thresholds {
        th := new ThresholdWindow(size, threshold);
        thresholds := thresholds[key := th];
        windowRepr := windowRepr + {th};
      }
      th := thresholds[key];
    }

    method AddToWindow(key: string, timestamp: int) returns (count: nat)
      requires DistinctWindows() && key in thresholds
      modifies windowRepr
      ensures Windows() == old(Windows())[key := Windows()[key]]
      ensures Windows()[key] == AddTo(old(Windows())[key], timestamp) && count == |Windows()[key].times|
    {
      count := thresholds[key].AddEvent(timestamp);
    }

    method CountEvent(key: string, size: Duration, threshold: int, timestamp: int) returns (count: nat)
      requires DistinctWindows()
      modifies `thresholds, `windowRepr, windowRepr
      ensures DistinctWindows()
      ensures var th := AddTo(ValueOr(old(Windows()), key, Window([], size, threshold)), timestamp);
        Windows() == old(Windows())[key := th] && count == |th.times|
      ensures fresh(windowRepr - old(windowRepr))
    {
      hide AddTo, Windows, DistinctWindows;
      var th := FindWindow(key, size, threshold);
      count := AddToWindow(key, timestamp);
    }

    method HandleThreshold(rule: Rule, event: Attributed, ghost st: State)
      requires DistinctWindows() && st.thresholds == Windows()
      modifies `thresholds, `windowRepr, `alerts, windowRepr
      ensures DistinctWindows()
      ensures var o := ThresholdStep(env, rule, event, st);
        Windows() == o.state.thresholds && alerts == old(alerts) + o.alerts
      ensures fresh(windowRepr - old(windowRepr))
    {
      hide Windows, DistinctWindows, DurationOr, AddTo, Key;
      var groupKey := BuildGroupKey(rule.name, rule.detect.groupBy, event);
      var windowSize := DurationOr(env, rule.detect.window, 10 * SECOND);
      var count := CountEvent(groupKey, windowSize, rule.detect.count, event.timestamp);
      if count > rule.detect.count {
        EmitAlert(AlertFor(rule, event));
      }
    }

    /** The group's tracker, made on first use unless the map to keep it in is nil. */
    method FindTracker(key: string, t: Tracker) returns (found: bool)
      requires ValidTrackers()
      modifies `trackers, `trackerRepr
      ensures found <==> old(key in trackers) || trackersMade
      ensures ValidTrackers()
      ensures found ==> key in trackers && Trackers() == old(Trackers())[key := ValueOr(old(Trackers()), key, t)]
      ensures fresh(trackerRepr - old(trackerRepr))
    {
      if key !in trackers {
        if !trackersMade {
          return false;
        }
        var tracker := new SequenceTracker(t);
        trackers := trackers[key := tracker];
        trackerRepr := trackerRepr + {tracker};
      }
      return true;
    }

    method AdvanceTracker(key: string, stepIndex: nat, timestamp: int) returns (currentStep: nat)
      requires ValidTrackers() && key in trackers
      modifies trackerRepr
      ensures ValidTrackers()
      ensures Trackers() == old(Trackers())[key := Trackers()[key]]
      ensures Trackers()[key] == Advance(old(Trackers())[key], stepIndex, timestamp)
      ensures currentStep == Trackers()[key].currentStep
    {
      trackers[key].AdvanceStep(stepIndex, timestamp);
      currentStep := trackers[key].currentStep;
    }

    /** What a matching step does to the group's tracker. */
    method TakeStep(key: string, i: nat, timestamp: int, window: Duration) returns (panicked: bool, currentStep: nat)
      requires ValidTrackers()
      modifies `trackers, `trackerRepr, trackerRepr
      ensures panicked <==> old(key !in trackers) && !trackersMade
      ensures ValidTrackers()
      ensures !panicked ==>
        var t := Advance(ValueOr(old(Trackers()), key, TrackerState(i, [timestamp], window)), i, timestamp);
        Trackers() == old(Trackers())[key := t] && currentStep == t.currentStep
      ensures fresh(trackerRepr - old(trackerRepr))
    {
      hide Advance, Trackers, ValidTrackers;
      var found := FindTracker(key, TrackerState(i, [timestamp], window));
      if !found {
        return true, 0;
      }
      panicked := false;
      currentStep := AdvanceTracker(key, i, timestamp);
    }

    /** One round of the loop over a sequence's steps, for a step that matches. */
    method MatchedStep(key: string, i: nat, window: Duration, alert: Alert,
                       ghost before: map<string, Tracker>, ghost p: Progress, ghost obs: Obs, steps: nat)
        returns (panicked: bool)
      requires ValidTrackers()
      requires |obs.hits| == steps && i < steps && obs.hits[i] && obs.time == alert.timestamp
      requires Trackers() == Store(before, key, p.tracker) && (p.tracker.None? ==> key !in before)
      modifies `trackers, `trackerRepr, `alerts, trackerRepr
      ensures ValidTrackers()
      ensures panicked <==> old(key !in trackers) && !trackersMade
      ensures panicked ==> alerts == old(alerts)
      ensures !panicked ==>
        var q := VisitStep(p, obs, window, i);
        Trackers() == Store(before, key, q.tracker) && alerts == old(alerts) + Repeat(alert, q.alerts - p.alerts)
      ensures fresh(trackerRepr - old(trackerRepr))
    {
      hide Trackers, ValidTrackers, Store, VisitStep, Advance;
      var currentStep;
      StoreStep(before, key, p, obs, window, i);
      panicked, currentStep := TakeStep(key, i, alert.timestamp, window);
      if !panicked && currentStep >= steps {
        EmitAlert(alert);
      }
    }

    method RunSteps(s: SequenceConfig, event: Attributed, key: string, alert: Alert) returns (panicked: bool)
      requires ValidTrackers() && (!trackersMade ==> trackers == map[])
      requires alert.timestamp == event.timestamp
      modifies `trackers, `trackerRepr, `alerts, trackerRepr
      ensures ValidTrackers()
      ensures panicked <==> !trackersMade && AnyHit(ObsOf(env, s, event))
      ensures panicked ==> alerts == old(alerts)
      ensures !panicked && !trackersMade ==> trackers == map[]
      ensures !panicked ==>
        var p := Observe(Lookup(old(Trackers()), key), ObsOf(env, s, event), SequenceSize(env, s));
        Trackers() == Store(old(Trackers()), key, p.tracker) && alerts == old(alerts) + Repeat(alert, p.alerts)
      ensures fresh(trackerRepr - old(trackerRepr))
    {
      hide BlockMatches, Advance, Found, Trackers, ValidTrackers, DurationOr;
      ghost var obs, w := ObsOf(env, s, event), SequenceSize(env, s);
      ghost var before := Trackers();
      ghost var p := Progress(Lookup(before, key), 0);
      for i := 0 to |s.steps|
        invariant ValidTrackers() && (!trackersMade ==> trackers == map[])
        invariant trackersMade || (alerts == old(alerts) && forall j | 0 <= j < i :: !obs.hits[j])
        invariant fresh(trackerRepr - old(trackerRepr))
        invariant p == VisitSteps(Lookup(before, key), obs, w, i) && (p.tracker.None? ==> key !in before)
        invariant Trackers() == Store(before, key, p.tracker)
        invariant alerts == old(alerts) + Repeat(alert, p.alerts)
      {
        var hit := BlockMatchEvent(env.glob, s.steps[i], event);
        if hit {
          panicked := MatchedStep(key, i, SequenceSize(env, s), alert, before, p, obs, |s.steps|);
          if panicked {
            assert obs.hits[i] in obs.hits;
            return;
          }
        }
        p := VisitStep(p, obs, w, i);
      }
      return false;
    }

    method HandleSequence(rule: Rule, event: Attributed, ghost st: State) returns (panicked: bool)
      requires ValidTrackers() && rule.sequence.Some? && st.trackers == Trackers()
      requires !trackersMade ==> trackers == map[]
      modifies `trackers, `trackerRepr, `alerts, trackerRepr
      ensures panicked <==> !trackersMade && TouchedBy(env, rule, event)
      ensures panicked ==> alerts == old(alerts)
      ensures ValidTrackers()
      ensures !panicked && !trackersMade ==> trackers == map[]
      ensures !panicked ==>
        var o := SequenceStep(env, rule, event, st);
        Trackers() == o.state.trackers && alerts == old(alerts) + o.alerts
      ensures fresh(trackerRepr - old(trackerRepr))
    {
      var s := rule.sequence.value;
      var key := BuildGroupKey(rule.name, SequenceGroupBy(s), event);
      panicked := RunSteps(s, event, key, AlertFor(rule, event));
    }

    /** A rule without a sequence: matched, then detected. */
    method DetectSingle(rule: Rule, event: Attributed, ghost st: State)
      requires DistinctWindows() && rule.sequence.None? && st.thresholds == Windows()
      modifies `thresholds, `windowRepr, `alerts, windowRepr
      ensures DistinctWindows()
      ensures var o := RuleStep(env, rule, event, st);
        Windows() == o.state.thresholds && st.trackers == o.state.trackers && alerts == old(alerts) + o.alerts
      ensures fresh(windowRepr - old(windowRepr))
    {
      hide ThresholdStep, RuleMatches, AlertFor, Windows, DistinctWindows;
      var matched := RuleMatchEvent(env.glob, rule, event);
      if matched {
        if rule.detect.mode == "threshold" {
          HandleThreshold(rule, event, st);
        } else {
          EmitAlert(AlertFor(rule, event));
        }
      }
    }

    method RunRule(rule: Rule, event: Attributed) returns (panicked: bool)
      requires Valid()
      modifies `thresholds, `trackers, `alerts, `windowRepr, `trackerRepr, windowRepr, trackerRepr
      ensures panicked <==> !trackersMade && TouchedBy(env, rule, event)
      ensures panicked ==> alerts == old(alerts)
      ensures !panicked ==> Valid()
      ensures !panicked ==>
        var o := RuleStep(env, rule, event, old(Abstract()));
        Abstract() == o.state && alerts == old(alerts) + o.alerts
      ensures fresh(windowRepr - old(windowRepr)) && fresh(trackerRepr - old(trackerRepr))
    {
      hide SequenceStep, ThresholdStep, RuleMatches, ObsOf, AnyHit, AlertFor;
      hide Windows, DistinctWindows, Trackers, ValidTrackers;
      ghost var st := Abstract();
      if rule.sequence.Some? {
        panicked := HandleSequence(rule, event, st);
      } else {
        panicked := false;
        DetectSingle(rule, event, st);
      }
    }

    method ProcessEvent(event: Attributed) returns (panicked: bool)
      requires Valid()
      modifies `thresholds, `trackers, `alerts, `windowRepr, `trackerRepr, windowRepr, trackerRepr
      ensures panicked <==> !trackersMade && TouchesTrackers(env, rules, event)
      ensures panicked ==> alerts == old(alerts) + SentBeforePanic(env, rules, event, old(Abstract()))
      ensures !panicked ==> Valid()
      ensures !panicked ==>
        var o := Process(env, rules, event, old(Abstract()));
        Abstract() == o.state && alerts == old(alerts) + o.alerts
      ensures fresh(windowRepr - old(windowRepr)) && fresh(trackerRepr - old(trackerRepr))
    {
      hide RuleStep, TouchedBy, Windows, DistinctWindows, Trackers, ValidTrackers, Abstract;
      for i := 0 to |rules|
        invariant Valid()
        invariant trackersMade || forall j | 0 <= j < i :: !TouchedBy(env, rules[j], event)
        invariant fresh(windowRepr - old(windowRepr)) && fresh(trackerRepr - old(trackerRepr))
        invariant var o := ProcessFirst(env, rules, event, old(Abstract()), i);
          Abstract() == o.state && alerts == old(alerts) + o.alerts
      {
        panicked := RunRule(rules[i], event);
        if panicked {
          return;
        }
      }
      return false;
    }

    /** The dispatch loop, over the events received until the channel closes or a
        panic ends the program at the given position. */
    method ProcessLoop(events: seq<Attributed>) returns (panicked: Option<nat>)
      requires Valid() && Abstract() == EMPTY && alerts == []
      modifies `thresholds, `trackers, `alerts, `windowRepr, `trackerRepr, windowRepr, trackerRepr
      ensures panicked.None? <==>
        trackersMade || forall i | 0 <= i < |events| :: !TouchesTrackers(env, rules, events[i])
      ensures panicked.Some? ==>
        && panicked.value < |events|
        && TouchesTrackers(env, rules, events[panicked.value])
        && (forall i | 0 <= i < panicked.value :: !TouchesTrackers(env, rules, events[i]))
        && var before := Run(env, rules, events[..panicked.value]);
           alerts == before.alerts + SentBeforePanic(env, rules, events[panicked.value], before.state)
      ensures panicked.None? ==> Valid() && Outcome(Abstract(), alerts) == Run(env, rules, events)
    {
      hide Process, TouchesTrackers, SentBeforePanic;
      for i := 0 to |events|
        invariant Valid()
        invariant trackersMade || forall j | 0 <= j < i :: !TouchesTrackers(env, rules, events[j])
        invariant Outcome(Abstract(), alerts) == Run(env, rules, events[..i])
        invariant fresh(windowRepr - old(windowRepr))
        invariant fresh(trackerRepr - old(trackerRepr))
      {
        assert events[..i + 1][..i] == events[..i];
        var p := ProcessEvent(events[i]);
        if p {
          return Some(i);
        }
      }
      assert events[..|events|] == events;
      return None;
    }
  }

  /** The program's use of the engine: make it, by `New` or with its tracker map made,
      feed it a stream, and see what it has sent when the stream ends or it panics. */
  method SendAlerts(env: Env, rules: seq<Rule>, made: bool, events: seq<Attributed>)
      returns (panicked: Option<nat>, sent: seq<Alert>)
    ensures panicked.None? <==> made || forall i | 0 <= i < |events| :: !TouchesTrackers(env, rules, events[i])
    ensures panicked.None? ==> sent == Run(env, rules, events).alerts
    ensures panicked.Some? ==>
      && panicked.value < |events| && TouchesTrackers(env, rules, events[panicked.value])
      && var before := Run(env, rules, events[..panicked.value]);
         sent == before.alerts + SentBeforePanic(env, rules, events[panicked.value], before.state)
  {
    hide TouchesTrackers, SentBeforePanic, Run;
    var engine;
    if made {
      engine := new RuleEngine.Initialised(env, rules);
    } else {
      engine := new RuleEngine.New(env, rules);
    }
    panicked := engine.ProcessLoop(events);
    sent := engine.alerts;
  }
}
