/** Rules do not disturb each other: what one rule logs in a set of rules is what it
    logs alone, as long as no rule's keys can belong to another. */
module RuleIsolation {
  import opened Core
  import opened Rules
  import opened GroupKey
  import opened Engine
  import opened Text
  import opened SlidingWindow
  import opened Tracker

  /** The name of rule i is apart from all others; how these relate does not matter. */
  ghost predicate StandsApart(rules: seq<Rule>, i: nat)
    requires i < |rules|
  {
    forall j | 0 <= j < |rules| && j != i :: Apart(rules[j].name, rules[i].name)
  }

  lemma ColonFreeNamesSeparate(rules: seq<Rule>)
    requires forall i | 0 <= i < |rules| :: ':' !in rules[i].name
    requires forall i, j | 0 <= i < j < |rules| :: rules[i].name != rules[j].name
    ensures forall i: nat | i < |rules| :: StandsApart(rules, i)
  {
    forall i, j | 0 <= i < |rules| && 0 <= j < |rules| && i != j ensures Apart(rules[i].name, rules[j].name) {
      ColonFreeNamesApart(rules[i].name, rules[j].name);
    }
  }

  /** The alerts of one rule, in order. */
  function ByRule(alerts: seq<Alert>, name: string): seq<Alert> {
    if alerts == [] then []
    else
      var n := |alerts| - 1;
      ByRule(alerts[..n], name) + if alerts[n].ruleName == name then [alerts[n]] else []
  }

  lemma {:induction false} ByRuleConcat(a: seq<Alert>, b: seq<Alert>, name: string)
    ensures ByRule(a + b, name) == ByRule(a, name) + ByRule(b, name)
  {
    if b == [] {
      assert a + b == a;
    } else {
      var n := |b| - 1;
      ByRuleConcat(a, b[..n], name);
      assert (a + b)[..|a + b| - 1] == a + b[..n];
    }
  }

  lemma {:induction false} ByRuleUniform(alerts: seq<Alert>, owner: string, name: string)
    requires forall i | 0 <= i < |alerts| :: alerts[i].ruleName == owner
    ensures ByRule(alerts, name) == if owner == name then alerts else []
  {
    if alerts != [] {
      var n := |alerts| - 1;
      var init := alerts[..n];
      ByRuleUniform(init, owner, name);
      assert alerts == init + [alerts[n]];
      assert alerts[n].ruleName == owner;
    }
  }

  // The part of the state a rule can reach

  ghost predicate SameOwned<V(!new)>(name: string, a: map<string, V>, b: map<string, V>) {
    forall key | Owns(name, key) :: Lookup(a, key) == Lookup(b, key)
  }

  ghost predicate AgreeFor(name: string, a: State, b: State) {
    SameOwned(name, a.thresholds, b.thresholds) && SameOwned(name, a.trackers, b.trackers)
  }

  lemma StoreBoth<V(!new)>(name: string, a: map<string, V>, b: map<string, V>, key: string, v: Option<V>)
    requires SameOwned(name, a, b)
    ensures SameOwned(name, Store(a, key, v), Store(b, key, v))
  {
    var x, y := Store(a, key, v), Store(b, key, v);
    forall k | Owns(name, k) ensures Lookup(x, k) == Lookup(y, k) {
      assert Lookup(a, k) == Lookup(b, k);
    }
  }

  lemma StoreElsewhere<V(!new)>(name: string, a: map<string, V>, b: map<string, V>, key: string, v: Option<V>)
    requires SameOwned(name, a, b) && !Owns(name, key)
    ensures SameOwned(name, Store(a, key, v), b)
  {
    var x := Store(a, key, v);
    forall k | Owns(name, k) ensures Lookup(x, k) == Lookup(b, k) {
      assert Lookup(a, k) == Lookup(b, k);
    }
  }

  /** A rule logs only under its own name. */
  lemma AlertsAreNamed(env: Env, r: Rule, e: Attributed, st: State)
    ensures forall i | 0 <= i < |RuleStep(env, r, e, st).alerts| :: RuleStep(env, r, e, st).alerts[i].ruleName == r.name
  {
    hide RuleMatches, Key, Observe, ObsOf, AddTo;
  }

  /** A rule whose name is apart changes nothing that is owned by the name. */
  lemma RuleStepElsewhere(env: Env, r: Rule, e: Attributed, name: string, a: State, b: State)
    requires Apart(r.name, name) && AgreeFor(name, a, b)
    ensures AgreeFor(name, RuleStep(env, r, e, a).state, b)
  {
    hide RuleMatches, Key, Observe, ObsOf, AddTo, Apart, Owns;
    if r.sequence.Some? {
      var s, key := r.sequence.value, SequenceKey(r, e);
      KeyIsOwned(r.name, SequenceGroupBy(s), e);
      OwnerIsUnique(r.name, name, key);
      var p := Observe(Lookup(a.trackers, key), ObsOf(env, s, e), SequenceSize(env, s));
      StoreElsewhere(name, a.trackers, b.trackers, key, p.tracker);
    } else {
      var key := ThresholdKey(r, e);
      KeyIsOwned(r.name, r.detect.groupBy, e);
      OwnerIsUnique(r.name, name, key);
      var th := ValueOr(a.thresholds, key, Window([], ThresholdSize(env, r), r.detect.count));
      StoreElsewhere(name, a.thresholds, b.thresholds, key, Some(AddTo(th, e.timestamp)));
    }
  }

  /** What a rule does depends only on the state its name owns. */
  lemma RuleStepLocal(env: Env, r: Rule, e: Attributed, a: State, b: State)
    requires AgreeFor(r.name, a, b)
    ensures RuleStep(env, r, e, a).alerts == RuleStep(env, r, e, b).alerts
    ensures AgreeFor(r.name, RuleStep(env, r, e, a).state, RuleStep(env, r, e, b).state)
  {
    hide RuleMatches, Key, Observe, ObsOf, AddTo, Apart, Owns;
    if r.sequence.Some? {
      var s, key := r.sequence.value, SequenceKey(r, e);
      KeyIsOwned(r.name, SequenceGroupBy(s), e);
      assert Lookup(a.trackers, key) == Lookup(b.trackers, key);
      var p := Observe(Lookup(a.trackers, key), ObsOf(env, s, e), SequenceSize(env, s));
      StoreBoth(r.name, a.trackers, b.trackers, key, p.tracker);
    } else {
      var key := ThresholdKey(r, e);
      KeyIsOwned(r.name, r.detect.groupBy, e);
      assert Lookup(a.thresholds, key) == Lookup(b.thresholds, key);
      var th := ValueOr(a.thresholds, key, Window([], ThresholdSize(env, r), r.detect.count));
      StoreBoth(r.name, a.thresholds, b.thresholds, key, Some(AddTo(th, e.timestamp)));
    }
  }

  // One event, then whole runs

  lemma OtherRuleStep(env: Env, r: Rule, e: Attributed, name: string, a: State, b: State, log: seq<Alert>)
    requires Apart(r.name, name) && AgreeFor(name, a, b)
    ensures var step := RuleStep(env, r, e, a);
      AgreeFor(name, step.state, b) && ByRule(log + step.alerts, name) == ByRule(log, name)
  {
    hide RuleStep, AgreeFor, ByRule;
    var step := RuleStep(env, r, e, a);
    RuleStepElsewhere(env, r, e, name, a, b);
    AlertsAreNamed(env, r, e, a);
    NamesDiffer(r.name, name);
    ByRuleConcat(log, step.alerts, name);
    ByRuleUniform(step.alerts, r.name, name);
  }

  lemma OwnRuleStep(env: Env, r: Rule, e: Attributed, a: State, b: State, log: seq<Alert>)
    requires AgreeFor(r.name, a, b) && ByRule(log, r.name) == []
    ensures var step, alone := RuleStep(env, r, e, a), RuleStep(env, r, e, b);
      AgreeFor(r.name, step.state, alone.state) && ByRule(log + step.alerts, r.name) == alone.alerts
  {
    hide RuleStep, AgreeFor, ByRule;
    var step := RuleStep(env, r, e, a);
    RuleStepLocal(env, r, e, a, b);
    AlertsAreNamed(env, r, e, a);
    ByRuleConcat(log, step.alerts, r.name);
    ByRuleUniform(step.alerts, r.name, r.name);
  }

  lemma {:induction false} ProcessProjects(env: Env, rules: seq<Rule>, i: nat, e: Attributed, a: State, b: State,
                                           n: nat)
    requires i < |rules| && StandsApart(rules, i) && n <= |rules|
    requires AgreeFor(rules[i].name, a, b)
    ensures var name, o, alone := rules[i].name, ProcessFirst(env, rules, e, a, n), RuleStep(env, rules[i], e, b);
      if n <= i then AgreeFor(name, o.state, b) && ByRule(o.alerts, name) == []
      else AgreeFor(name, o.state, alone.state) && ByRule(o.alerts, name) == alone.alerts
  {
    hide RuleStep, Apart, AgreeFor;
    if n > 0 {
      var name, r := rules[i].name, rules[n - 1];
      ProcessProjects(env, rules, i, e, a, b, n - 1);
      var before := ProcessFirst(env, rules, e, a, n - 1);
      if n - 1 == i {
        OwnRuleStep(env, r, e, before.state, b, before.alerts);
      } else {
        var reached := if n - 1 < i then b else RuleStep(env, rules[i], e, b).state;
        OtherRuleStep(env, r, e, name, before.state, reached, before.alerts);
      }
    }
  }

  lemma NamesDiffer(a: string, b: string)
    ensures Apart(a, b) ==> a != b
  {}

  lemma ProcessAlone(env: Env, r: Rule, e: Attributed, st: State)
    ensures Process(env, [r], e, st) == RuleStep(env, r, e, st)
  {
    hide RuleStep;
    assert ProcessFirst(env, [r], e, st, 0) == Outcome(st, []);
    assert [] + RuleStep(env, r, e, st).alerts == RuleStep(env, r, e, st).alerts;
  }

  /** Non-interference: whatever the kinds and order of the rules, a rule's part of
      the log of any run, and the state it keeps, are those of an engine loaded with
      that rule alone. */
  lemma {:induction false} NonInterference(env: Env, rules: seq<Rule>, i: nat, events: seq<Attributed>)
    requires i < |rules| && StandsApart(rules, i)
    ensures AgreeFor(rules[i].name, Run(env, rules, events).state, Run(env, [rules[i]], events).state)
    ensures ByRule(Run(env, rules, events).alerts, rules[i].name) == Run(env, [rules[i]], events).alerts
  {
    hide Process, ProcessFirst, RuleStep, AgreeFor;
    var name := rules[i].name;
    if events == [] {
      assert AgreeFor(name, EMPTY, EMPTY) by { AgreeReflexive(name, EMPTY); }
    } else {
      var n := |events| - 1;
      NonInterference(env, rules, i, events[..n]);
      var a, b := Run(env, rules, events[..n]), Run(env, [rules[i]], events[..n]);
      EventProjects(env, rules, i, events[n], a.state, b.state);
      ByRuleConcat(a.alerts, Process(env, rules, events[n], a.state).alerts, name);
    }
  }

  lemma AgreeReflexive(name: string, st: State)
    ensures AgreeFor(name, st, st)
  {}

  lemma EventProjects(env: Env, rules: seq<Rule>, i: nat, e: Attributed, a: State, b: State)
    requires i < |rules| && StandsApart(rules, i) && AgreeFor(rules[i].name, a, b)
    ensures var all, alone := Process(env, rules, e, a), Process(env, [rules[i]], e, b);
      AgreeFor(rules[i].name, all.state, alone.state) && ByRule(all.alerts, rules[i].name) == alone.alerts
  {
    hide RuleStep, AgreeFor, ProcessFirst;
    ProcessProjects(env, rules, i, e, a, b, |rules|);
    ProcessAlone(env, rules[i], e, b);
  }

  /** The same, event by event. */
  lemma EmittedProjects(env: Env, rules: seq<Rule>, i: nat, events: seq<Attributed>, p: nat)
    requires i < |rules| && StandsApart(rules, i) && p < |events|
    ensures ByRule(EmittedAt(env, rules, events, p), rules[i].name) == EmittedAt(env, [rules[i]], events, p)
  {
    hide Process, AgreeFor, Run;
    NonInterference(env, rules, i, events[..p]);
    var all, alone := Run(env, rules, events[..p]), Run(env, [rules[i]], events[..p]);
    EventProjects(env, rules, i, events[p], all.state, alone.state);
  }

  /** What the first n rules, each loaded alone, raise at position p, one after the other. */
  function AloneInOrder(env: Env, rules: seq<Rule>, events: seq<Attributed>, p: nat, n: nat): seq<Alert>
    requires p < |events| && n <= |rules|
  {
    if n == 0 then [] else AloneInOrder(env, rules, events, p, n - 1) + EmittedAt(env, [rules[n - 1]], events, p)
  }

  /** The alerts of one event come in the order of the rules. */
  lemma EmittedInRuleOrder(env: Env, rules: seq<Rule>, events: seq<Attributed>, p: nat)
    requires p < |events| && forall i: nat | i < |rules| :: StandsApart(rules, i)
    ensures EmittedAt(env, rules, events, p) == AloneInOrder(env, rules, events, p, |rules|)
  {
    FirstInRuleOrder(env, rules, events, p, |rules|);
  }

  lemma {:induction false} FirstInRuleOrder(env: Env, rules: seq<Rule>, events: seq<Attributed>, p: nat, n: nat)
    requires p < |events| && n <= |rules| && forall i: nat | i < |rules| :: StandsApart(rules, i)
    ensures ProcessFirst(env, rules, events[p], Run(env, rules, events[..p]).state, n).alerts
            == AloneInOrder(env, rules, events, p, n)
  {
    hide Run, RuleStep, AgreeFor, StandsApart;
    if n > 0 {
      var e, r, st := events[p], rules[n - 1], Run(env, rules, events[..p]).state;
      var alone := Run(env, [r], events[..p]).state;
      FirstInRuleOrder(env, rules, events, p, n - 1);
      assert StandsApart(rules, n - 1);
      NonInterference(env, rules, n - 1, events[..p]);
      ProcessProjects(env, rules, n - 1, e, st, alone, n - 1);
      RuleStepLocal(env, r, e, ProcessFirst(env, rules, e, st, n - 1).state, alone);
      ProcessAlone(env, r, e, alone);
    }
  }

  // Exactly the names that are apart isolate their rules

  /** A rule that alerts on the second event of a group within ten seconds. */
  function CountingRule(name: string, groupBy: seq<string>): Rule {
    Rule(name, "", "", "", Some(BLANK_BLOCK), [], [], DetectConfig("threshold", 1, "10s", groupBy), None)
  }

  function EventFrom(container: string): Attributed {
    BLANK_EVENT.(srcContainer := Some(ContainerInfo("", container, "")))
  }

  const DEFAULTS := Env((pattern: string, value: string) => None, (text: string) => None)

  lemma CountingStep(name: string, groupBy: seq<string>, e: Attributed, st: State)
    ensures var r := CountingRule(name, groupBy); RuleStep(DEFAULTS, r, e, st) == ThresholdStep(DEFAULTS, r, e, st)
  {
    assert OwnConstraints(DEFAULTS.glob, BLANK_BLOCK, e);
  }

  /** Two counting rules with one key count a single event twice. */
  lemma SharedKeyInterferes(r: Rule, s: Rule, e: Attributed)
    requires r == CountingRule(r.name, r.detect.groupBy) && s == CountingRule(s.name, s.detect.groupBy)
    requires ThresholdKey(r, e) == ThresholdKey(s, e)
    ensures ByRule(Run(DEFAULTS, [r, s], [e]).alerts, s.name) == [AlertFor(s, e)]
    ensures Run(DEFAULTS, [s], [e]).alerts == []
  {
    hide Key, BlockMatches;
    var t, w := e.timestamp, 10 * SECOND;
    assert Added([], t, w) == [t] by { assert [] + [t] == [t]; }
    assert Added([t], t, w) == [t, t] by { assert [t] + [t] == [t, t]; }
    CountingStep(r.name, r.detect.groupBy, e, EMPTY);
    CountingStep(s.name, s.detect.groupBy, e, EMPTY);
    var first := RuleStep(DEFAULTS, r, e, EMPTY);
    CountingStep(s.name, s.detect.groupBy, e, first.state);
    assert RuleStep(DEFAULTS, s, e, first.state).alerts == [AlertFor(s, e)];
    assert ProcessFirst(DEFAULTS, [r, s], e, EMPTY, 0) == Outcome(EMPTY, []);
    assert ProcessFirst(DEFAULTS, [r, s], e, EMPTY, 1) == first;
    assert Process(DEFAULTS, [r, s], e, EMPTY).alerts == [AlertFor(s, e)];
    assert [e][..0] == [];
    assert Run(DEFAULTS, [r, s], [e]).alerts == [AlertFor(s, e)];
    ByRuleUniform([AlertFor(s, e)], s.name, s.name);
    ProcessAlone(DEFAULTS, s, e, EMPTY);
  }

  lemma ContainerKey(name: string, container: string)
    ensures Key(name, [SRC], EventFrom(container)) == name + ":" + container
  {
    var e := EventFrom(container);
    assert [SRC][..0] == [];
    assert FieldText(SRC, e) == Some(container);
    assert Parts([SRC], e) == [container];
    var parts := [name] + [container];
    assert parts[1..] == [container];
    assert Join(parts, ':') == name + ":" + container;
  }

  /** Rules of these two names never disturb each other, whatever else they are. */
  ghost predicate Isolated(a: string, b: string) {
    forall env: Env, r: Rule, s: Rule, events: seq<Attributed> | r.name == a && s.name == b ::
      && ByRule(Run(env, [r, s], events).alerts, a) == Run(env, [r], events).alerts
      && ByRule(Run(env, [r, s], events).alerts, b) == Run(env, [s], events).alerts
  }

  lemma ApartIsolates(a: string, b: string)
    requires Apart(a, b)
    ensures Isolated(a, b)
  {
    forall env: Env, r: Rule, s: Rule, events: seq<Attributed> | r.name == a && s.name == b
      ensures ByRule(Run(env, [r, s], events).alerts, a) == Run(env, [r], events).alerts
      ensures ByRule(Run(env, [r, s], events).alerts, b) == Run(env, [s], events).alerts
    {
      NonInterference(env, [r, s], 0, events);
      NonInterference(env, [r, s], 1, events);
    }
  }

  /** Names isolate their rules if and only if neither is the other, nor the other
      cut off at one of its colons. */
  lemma IsolatedIff(a: string, b: string)
    ensures Isolated(a, b) <==> Apart(a, b)
  {
    hide Run, ByRule, Key;
    if Apart(a, b) {
      ApartIsolates(a, b);
    } else {
      var longer, shorter := if Owns(a, b) then b else a, if Owns(a, b) then a else b;
      var rest, groupBy := "", [];
      if longer != shorter {
        rest, groupBy := longer[|shorter| + 1..], [SRC];
        assert longer == shorter + ":" + rest;
        ContainerKey(shorter, rest);
      }
      var e := EventFrom(rest);
      NameAsKey(longer, e);
      NameAsKey(shorter, e);
      var r := CountingRule(a, if a == shorter then groupBy else []);
      var s := CountingRule(b, if a == shorter then [] else groupBy);
      SharedKeyInterferes(r, s, e);
      assert ByRule(Run(DEFAULTS, [r, s], [e]).alerts, b) != Run(DEFAULTS, [s], [e]).alerts;
    }
  }
}
