/** What a rule in a running engine does for one group of events is what a fresh window,
    or a fresh tracker, does that is shown the events of that group only. */
module GroupRefinement {
  import opened Core
  import opened Rules
  import opened GroupKey
  import opened Engine
  import opened RuleIsolation
  import opened SlidingWindow
  import opened Tracker
  import opened SequenceSoundness
  import opened SequenceCompleteness

  /** The grouping separates the groups of these events; see KeysFaithfulIff. */
  ghost predicate Faithful(groupBy: seq<string>, events: seq<Attributed>) {
    forall e <- events :: PlainAddresses(e) && (SRC in groupBy && DST in groupBy ==> PlainContainers(e))
  }

  // What a rule owes, told apart from the engine

  /** The alert a rule owes an event, field by field. */
  function Owed(r: Rule, e: Event): Alert {
    BLANK_ALERT.(
      timestamp := e.timestamp,
      ruleName := r.name,
      severity := r.severity,
      description := r.description,
      srcContainer := e.srcContainer,
      dstContainer := e.dstContainer)
  }

  const BLANK_ALERT := Alert(0, "", "", "", None, None)

  /** One alert of the rule on the event, or none. */
  function OwedIf(condition: bool, r: Rule, e: Event): seq<Alert> {
    if condition then [Owed(r, e)] else []
  }

  /** The window a rule states, or the fallback if it states none that can be parsed. */
  function StatedWindow(env: Env, text: string, fallback: Duration): Duration {
    match env.parseDuration(text)
    case Some(d) => d
    case None => fallback
  }

  // Rules with immediate detection

  /** Whatever the other rules, a rule that neither counts nor has steps raises exactly
      one alert on every event it matches, and none on any other. */
  lemma ImmediateRefines(env: Env, rules: seq<Rule>, i: nat, events: seq<Attributed>, p: nat)
    requires i < |rules| && StandsApart(rules, i) && p < |events|
    requires rules[i].sequence.None? && rules[i].detect.mode != "threshold"
    ensures var r, e := rules[i], events[p];
      ByRule(EmittedAt(env, rules, events, p), r.name) == OwedIf(RuleMatches(env.glob, r, e), r, e)
  {
    hide RuleMatches, Run, Process;
    var r, e := rules[i], events[p];
    EmittedProjects(env, rules, i, events, p);
    ProcessAlone(env, r, e, Run(env, [r], events[..p]).state);
  }

  // Threshold rules

  /** The times of the rule's events that carry the key. */
  function KeyTimes(env: Env, r: Rule, events: seq<Attributed>, key: string): seq<int> {
    if events == [] then []
    else
      var n := |events| - 1;
      var before := KeyTimes(env, r, events[..n], key);
      if RuleMatches(env.glob, r, events[n]) && ThresholdKey(r, events[n]) == key
      then before + [events[n].timestamp] else before
  }

  /** The times of the rule's events that agree with e on every grouping field. */
  function GroupTimes(env: Env, r: Rule, events: seq<Attributed>, e: Attributed): seq<int> {
    if events == [] then []
    else
      var n := |events| - 1;
      var before := GroupTimes(env, r, events[..n], e);
      if RuleMatches(env.glob, r, events[n]) && SameGroup(r.detect.groupBy, events[n], e)
      then before + [events[n].timestamp] else before
  }

  lemma {:induction false} KeyTimesAreGroupTimes(env: Env, r: Rule, events: seq<Attributed>, e: Attributed)
    requires Faithful(r.detect.groupBy, events) && Faithful(r.detect.groupBy, [e])
    ensures KeyTimes(env, r, events, ThresholdKey(r, e)) == GroupTimes(env, r, events, e)
  {
    hide RuleMatches, Key, SameGroup;
    if events != [] {
      var n := |events| - 1;
      KeyTimesAreGroupTimes(env, r, events[..n], e);
      assert events[n] in events && e in [e];
      KeyIffSameGroup(r.name, r.detect.groupBy, events[n], e);
    }
  }

  function NewWindow(env: Env, r: Rule): Window {
    Window([], ThresholdSize(env, r), r.detect.count)
  }

  function WindowState(env: Env, r: Rule, times: seq<int>): Option<Window> {
    if times == [] then None
    else Some(Window(WindowAfter(times, ThresholdSize(env, r)), ThresholdSize(env, r), r.detect.count))
  }

  lemma WindowGrows(env: Env, r: Rule, times: seq<int>, t: int)
    ensures var th := match WindowState(env, r, times) case Some(x) => x case None => NewWindow(env, r);
      Some(AddTo(th, t)) == WindowState(env, r, times + [t])
  {
    assert (times + [t])[..|times|] == times;
  }

  lemma RunAlone(env: Env, r: Rule, events: seq<Attributed>)
    requires events != []
    ensures var n := |events| - 1;
      Run(env, [r], events).state == RuleStep(env, r, events[n], Run(env, [r], events[..n]).state).state
  {
    hide RuleStep, Process;
    var n := |events| - 1;
    ProcessAlone(env, r, events[n], Run(env, [r], events[..n]).state);
  }

  /** Alone, a threshold rule keeps under each key the window of that key's events. */
  lemma {:induction false} ThresholdStateByKey(env: Env, r: Rule, events: seq<Attributed>, key: string)
    requires IsThreshold(r)
    ensures Lookup(Run(env, [r], events).state.thresholds, key) == WindowState(env, r, KeyTimes(env, r, events, key))
  {
    hide RuleMatches, Key, Run, AddTo, WindowState;
    if events == [] {
      RunOfNothing(env, [r]);
      WindowStateEmpty(env, r);
    } else {
      var n := |events| - 1;
      RunAlone(env, r, events);
      ThresholdStateByKey(env, r, events[..n], key);
      WindowGrows(env, r, KeyTimes(env, r, events[..n], key), events[n].timestamp);
    }
  }

  lemma RunOfNothing(env: Env, rules: seq<Rule>)
    ensures Run(env, rules, []) == Outcome(EMPTY, [])
  {}

  lemma WindowStateEmpty(env: Env, r: Rule)
    ensures WindowState(env, r, []) == None
  {}

  /** Per-group refinement of thresholds: whatever the other rules, the rule raises one
      alert on an event exactly if the event matches it and a fresh window of the stated
      size, or ten seconds, run over the rule's events of the same group up to this one,
      counts more than the limit. */
  lemma ThresholdRefinesGroups(env: Env, rules: seq<Rule>, i: nat, events: seq<Attributed>, p: nat)
    requires i < |rules| && StandsApart(rules, i) && IsThreshold(rules[i]) && p < |events|
    requires Faithful(rules[i].detect.groupBy, events)
    ensures var r, e := rules[i], events[p];
      var w := StatedWindow(env, r.detect.window, 10_000_000_000);
      var count := |WindowAfter(GroupTimes(env, r, events[..p + 1], e), w)|;
      ByRule(EmittedAt(env, rules, events, p), r.name)
        == OwedIf(RuleMatches(env.glob, r, e) && count > r.detect.count, r, e)
  {
    hide RuleMatches, Key, Run, KeyTimes, GroupTimes, Process, AddTo, WindowAfter;
    var r, e := rules[i], events[p];
    EmittedProjects(env, rules, i, events, p);
    ProcessAlone(env, r, e, Run(env, [r], events[..p]).state);
    if RuleMatches(env.glob, r, e) {
      var key := ThresholdKey(r, e);
      ThresholdStateByKey(env, r, events[..p], key);
      CountedAfter(env, r, events, p);
      assert e in events;
      KeyTimesAreGroupTimes(env, r, events[..p + 1], e);
    }
  }

  lemma CountedAfter(env: Env, r: Rule, events: seq<Attributed>, p: nat)
    requires p < |events| && RuleMatches(env.glob, r, events[p])
    ensures var e := events[p];
      var key, w := ThresholdKey(r, e), ThresholdSize(env, r);
      var th := match WindowState(env, r, KeyTimes(env, r, events[..p], key))
                case Some(x) => x
                case None => NewWindow(env, r);
      AddTo(th, e.timestamp).times == WindowAfter(KeyTimes(env, r, events[..p + 1], key), w)
  {
    hide RuleMatches, Key;
    var e := events[p];
    var times := KeyTimes(env, r, events[..p], ThresholdKey(r, e));
    assert events[..p + 1][..p] == events[..p];
    WindowGrows(env, r, times, e.timestamp);
  }

  // Sequence rules

  function NoHits(n: nat): seq<bool> {
    seq(n, _ => false)
  }

  /** The history as the tracker of a key sees it: events of other keys match nothing. */
  function KeyView(env: Env, r: Rule, events: seq<Attributed>, key: string): (h: seq<Obs>)
    requires r.sequence.Some?
    ensures |h| == |events|
  {
    if events == [] then []
    else
      var n, s := |events| - 1, r.sequence.value;
      var o := ObsOf(env, s, events[n]);
      KeyView(env, r, events[..n], key)
      + [if SequenceKey(r, events[n]) == key then o else o.(hits := NoHits(|s.steps|))]
  }

  lemma {:induction false} KeyViewAt(env: Env, r: Rule, events: seq<Attributed>, key: string, p: nat)
    requires r.sequence.Some? && p < |events|
    ensures var s := r.sequence.value; var o := ObsOf(env, s, events[p]);
      KeyView(env, r, events, key)[p] ==
        if SequenceKey(r, events[p]) == key then o else o.(hits := NoHits(|s.steps|))
    ensures KeyView(env, r, events[..p], key) == KeyView(env, r, events, key)[..p]
  {
    hide ObsOf, Key;
    var n := |events| - 1;
    if p < n {
      KeyViewAt(env, r, events[..n], key, p);
      assert events[..n][..p] == events[..p];
      assert KeyView(env, r, events, key)[..p] == KeyView(env, r, events[..n], key)[..p];
    }
  }

  lemma KeyViewSteps(env: Env, r: Rule, events: seq<Attributed>, key: string)
    requires r.sequence.Some?
    ensures Steps(KeyView(env, r, events, key), |r.sequence.value.steps|)
  {
    hide KeyView, Key;
    forall p | 0 <= p < |events| ensures |KeyView(env, r, events, key)[p].hits| == |r.sequence.value.steps| {
      KeyViewAt(env, r, events, key, p);
    }
  }

  /** Alone, a sequence rule keeps under each key the tracker of that key's events. */
  lemma {:induction false} SequenceStateByKey(env: Env, r: Rule, events: seq<Attributed>, key: string)
    requires r.sequence.Some?
    ensures Lookup(Run(env, [r], events).state.trackers, key) ==
            TrackerAfter(None, KeyView(env, r, events, key), SequenceSize(env, r.sequence.value))
  {
    hide Key, Run;
    var s := r.sequence.value;
    var w := SequenceSize(env, s);
    if events == [] {
      RunOfNothing(env, [r]);
    } else {
      var n := |events| - 1;
      RunAlone(env, r, events);
      SequenceStateByKey(env, r, events[..n], key);
      var view := KeyView(env, r, events, key);
      assert view[..n] == KeyView(env, r, events[..n], key);
      var t := TrackerAfter(None, view[..n], w);
      if t.Some? { VisitsKeep(t, view[n], w, |view[n].hits|); }
      if SequenceKey(r, events[n]) != key {
        QuietEvent(TrackerAfter(None, view[..n], w), view[n], w);
      }
    }
  }

  lemma {:induction false} VisitsKeep(t: Option<Tracker>, o: Obs, w: Duration, i: nat)
    requires i <= |o.hits| && t.Some?
    ensures VisitSteps(t, o, w, i).tracker.Some?
  {
    if i > 0 { VisitsKeep(t, o, w, i - 1); }
  }

  lemma QuietEvent(t: Option<Tracker>, o: Obs, w: Duration)
    requires o.hits == NoHits(|o.hits|)
    ensures Observe(t, o, w).tracker == t
  {
    NoHitNoChange(t, o, w, |o.hits|);
  }

  /** Whatever the other rules, a sequence rule raises on an event the alerts that
      the tracker of the event's key raises on it, with the window the rule states, or
      five seconds. */
  lemma SequenceRefinesKeys(env: Env, rules: seq<Rule>, i: nat, events: seq<Attributed>, p: nat)
    requires i < |rules| && StandsApart(rules, i) && rules[i].sequence.Some? && p < |events|
    ensures var r, e := rules[i], events[p];
      var view := KeyView(env, r, events, SequenceKey(r, e));
      var w := StatedWindow(env, r.sequence.value.window, 5_000_000_000);
      |ByRule(EmittedAt(env, rules, events, p), r.name)| == AlertsAt(None, view, w, p)
    ensures forall a <- ByRule(EmittedAt(env, rules, events, p), rules[i].name) :: a == Owed(rules[i], events[p])
  {
    hide Key, Run, KeyView, Process, Observe, TrackerAfter, ObsOf;
    var r, e := rules[i], events[p];
    EmittedProjects(env, rules, i, events, p);
    ProcessAlone(env, r, e, Run(env, [r], events[..p]).state);
    var key := SequenceKey(r, e);
    SequenceStateByKey(env, r, events[..p], key);
    KeyViewAt(env, r, events, key, p);
  }

  /** A sequence rule groups by the fields it states, or by the source container. */
  lemma StatedGroups(s: SequenceConfig, a: Attributed, b: Attributed)
    ensures SameGroup(SequenceGroupBy(s), a, b) <==>
            if |s.groupBy| > 0 then SameGroup(s.groupBy, a, b)
            else a.srcContainer.value.name == b.srcContainer.value.name
  {
    assert SameGroup([SRC], a, b) <==> SameField(SRC, a, b) by {
      assert SRC in [SRC];
    }
  }

  /** The event belongs to the group of e and matches step j. */
  predicate GroupStep(env: Env, r: Rule, e: Attributed, x: Attributed, j: nat)
    requires r.sequence.Some?
  {
    && j < |r.sequence.value.steps|
    && SameGroup(SequenceGroupBy(r.sequence.value), x, e)
    && BlockMatches(env.glob, r.sequence.value.steps[j], x)
  }

  /** Position first holds the group's first matching event, which matches no step
      below k. */
  ghost predicate GroupOpensAt(env: Env, r: Rule, events: seq<Attributed>, p: nat, k: nat, first: nat)
    requires r.sequence.Some? && p < |events| && first < |events|
  {
    && k <= |r.sequence.value.steps|
    && (forall q: nat, j: nat | q < first && j < |r.sequence.value.steps| ::
          !GroupStep(env, r, events[p], events[q], j))
    && (forall j: nat | j < k :: !GroupStep(env, r, events[p], events[first], j))
  }

  /** The events at idx, of the group of the event at p and none later, match the steps
      from k to the last, the later ones inside the window of the first. Only the very
      first matching event of a group can begin above step 0. */
  ghost predicate GroupChain(env: Env, r: Rule, events: seq<Attributed>, p: nat, k: nat, idx: seq<nat>)
    requires r.sequence.Some? && p < |events|
  {
    && k + |idx| == |r.sequence.value.steps|
    && (forall j | 0 <= j < |idx| :: idx[j] <= p && GroupStep(env, r, events[p], events[idx[j]], k + j))
    && (forall a, b | 0 <= a < b < |idx| :: idx[a] <= idx[b])
    && (forall j | 1 <= j < |idx| ::
          !Expired(events[idx[j]].timestamp, events[idx[0]].timestamp, SequenceSize(env, r.sequence.value)))
    && (k > 0 ==> idx != [] && GroupOpensAt(env, r, events, p, k, idx[0]))
  }

  function Timestamps(events: seq<Attributed>): seq<int> {
    seq(|events|, i requires 0 <= i < |events| => events[i].timestamp)
  }

  lemma HitIsGroupStep(env: Env, r: Rule, events: seq<Attributed>, e: Attributed, p: nat, j: nat)
    requires r.sequence.Some? && p < |events| && j < |r.sequence.value.steps|
    requires Faithful(SequenceGroupBy(r.sequence.value), events) && Faithful(SequenceGroupBy(r.sequence.value), [e])
    ensures |KeyView(env, r, events, SequenceKey(r, e))[p].hits| == |r.sequence.value.steps|
    ensures KeyView(env, r, events, SequenceKey(r, e))[p].hits[j] <==> GroupStep(env, r, e, events[p], j)
    ensures KeyView(env, r, events, SequenceKey(r, e))[p].time == events[p].timestamp
  {
    hide KeyView, Key, SameGroup;
    KeyViewAt(env, r, events, SequenceKey(r, e), p);
    assert events[p] in events && e in [e];
    KeyIffSameGroup(r.name, SequenceGroupBy(r.sequence.value), events[p], e);
  }

  /** Soundness over whole runs: behind an alert at position p stands a chain of events
      of the alerting event's group, one for each step from k to the last. They are
      later than the first by the window at most, and earlier than it at most by the
      disorder of the stream. Only the very first events of a group can make k larger
      than 0: no earlier event of the group matched any step, and the chain's first
      event matched no step below k. */
  lemma SequenceAlertExplained(env: Env, rules: seq<Rule>, i: nat, events: seq<Attributed>, p: nat)
      returns (k: nat, idx: seq<nat>)
    requires i < |rules| && StandsApart(rules, i) && rules[i].sequence.Some? && p < |events|
    requires Faithful(SequenceGroupBy(rules[i].sequence.value), events)
    requires ByRule(EmittedAt(env, rules, events, p), rules[i].name) != []
    ensures GroupChain(env, rules[i], events, p, k, idx)
    ensures forall d: nat, j | Disorder(Timestamps(events), d) && 1 <= j < |idx| ::
      events[idx[j]].timestamp >= events[idx[0]].timestamp - d
  {
    hide KeyView, Key, GroupStep, Run, Process, EmittedAt;
    var r, e := rules[i], events[p];
    var s := r.sequence.value;
    var n, w, h := |s.steps|, SequenceSize(env, s), KeyView(env, r, events, SequenceKey(r, e));
    SequenceRefinesKeys(env, rules, i, events, p);
    KeyViewSteps(env, r, events, SequenceKey(r, e));
    k, idx := AlertHasChain(h, n, w, p);
    assert e in events;
    forall q: nat, j: nat | q < |events| && j < n
      ensures h[q].hits[j] <==> GroupStep(env, r, e, events[q], j)
      ensures h[q].time == events[q].timestamp
    {
      HitIsGroupStep(env, r, events, e, q, j);
    }
    forall j | 0 <= j < |idx|
      ensures idx[j] <= p && GroupStep(env, r, e, events[idx[j]], k + j)
      ensures h[idx[j]].time == events[idx[j]].timestamp
    {
      assert h[..p + 1][idx[j]] == h[idx[j]];
    }
    if k > 0 {
      forall q: nat, j: nat | q < idx[0] && j < n ensures !GroupStep(env, r, e, events[q], j) {
        assert !AnyHit(h[q]) && h[q].hits[j] in h[q].hits;
      }
    }
    DisorderBoundsChain(events, idx);
  }

  lemma DisorderBoundsChain(events: seq<Attributed>, idx: seq<nat>)
    requires forall j | 0 <= j < |idx| :: idx[j] < |events|
    requires forall a, b | 0 <= a < b < |idx| :: idx[a] <= idx[b]
    ensures forall d: nat, j | Disorder(Timestamps(events), d) && 1 <= j < |idx| ::
      events[idx[j]].timestamp >= events[idx[0]].timestamp - d
  {
    forall d: nat, j | Disorder(Timestamps(events), d) && 1 <= j < |idx|
      ensures events[idx[j]].timestamp >= events[idx[0]].timestamp - d
    {
      assert idx[0] <= idx[j];
      assert idx[0] < idx[j] ==> Timestamps(events)[idx[j]] >= Timestamps(events)[idx[0]] - d;
    }
  }

  lemma {:induction false} TrackerAfterConcat(a: seq<Obs>, b: seq<Obs>, w: Duration)
    ensures TrackerAfter(None, a + b, w) == TrackerAfter(TrackerAfter(None, a, w), b, w)
  {
    if b == [] {
      assert a + b == a;
    } else {
      var n := |b| - 1;
      TrackerAfterConcat(a, b[..n], w);
      assert (a + b)[..|a + b| - 1] == a + b[..n];
    }
  }

  /** The tracker the engine keeps under a key of the rule, whatever the other rules. */
  function KeptTracker(env: Env, rules: seq<Rule>, events: seq<Attributed>, key: string): Option<Tracker> {
    Lookup(Run(env, rules, events).state.trackers, key)
  }

  lemma KeptTrackerByKey(env: Env, rules: seq<Rule>, i: nat, events: seq<Attributed>, key: string)
    requires i < |rules| && StandsApart(rules, i) && rules[i].sequence.Some? && Owns(rules[i].name, key)
    ensures var r := rules[i]; var w := SequenceSize(env, r.sequence.value);
      KeptTracker(env, rules, events, key) == TrackerAfter(None, KeyView(env, r, events, key), w)
    ensures OwnWindow(KeptTracker(env, rules, events, key), SequenceSize(env, rules[i].sequence.value))
  {
    hide Run, KeyView, TrackerAfter, Chain;
    NonInterference(env, rules, i, events);
    SequenceStateByKey(env, rules[i], events, key);
    var k, idx := TrackerExplained(KeyView(env, rules[i], events, key), SequenceSize(env, rules[i].sequence.value));
  }

  /** The event belongs to the group of e and matches some step. */
  ghost predicate InGroupMatch(env: Env, r: Rule, e: Attributed, x: Attributed)
    requires r.sequence.Some?
  {
    exists j: nat :: GroupStep(env, r, e, x, j)
  }

  /** From position s up to stop, the group's matching events are pairwise inside the
      window. */
  ghost predicate GroupWithin(env: Env, r: Rule, events: seq<Attributed>, e: Attributed, s: nat, stop: nat)
    requires r.sequence.Some? && stop <= |events|
  {
    forall a, b | s <= a < stop && s <= b < stop
      && InGroupMatch(env, r, e, events[a]) && InGroupMatch(env, r, e, events[b]) ::
      !Expired(events[a].timestamp, events[b].timestamp, SequenceSize(env, r.sequence.value))
  }

  /** Events at and after position s match the steps of the rule one after the other. */
  ghost predicate GroupPicks(env: Env, r: Rule, events: seq<Attributed>, e: Attributed, s: nat, pos: seq<nat>)
    requires r.sequence.Some?
  {
    && |pos| == |r.sequence.value.steps|
    && (forall j | 0 <= j < |pos| :: s <= pos[j] < |events| && GroupStep(env, r, e, events[pos[j]], j))
    && (forall a, b | 0 <= a < b < |pos| :: pos[a] <= pos[b])
  }

  lemma HitIsInGroup(env: Env, r: Rule, events: seq<Attributed>, e: Attributed, p: nat)
    requires r.sequence.Some? && p < |events|
    requires Faithful(SequenceGroupBy(r.sequence.value), events) && Faithful(SequenceGroupBy(r.sequence.value), [e])
    ensures KeyView(env, r, events, SequenceKey(r, e))[p].time == events[p].timestamp
    ensures AnyHit(KeyView(env, r, events, SequenceKey(r, e))[p]) ==> InGroupMatch(env, r, e, events[p])
  {
    hide KeyView, Key, GroupStep;
    KeyViewAt(env, r, events, SequenceKey(r, e), p);
    var o := KeyView(env, r, events, SequenceKey(r, e))[p];
    if AnyHit(o) {
      var j :| 0 <= j < |o.hits| && o.hits[j];
      HitIsGroupStep(env, r, events, e, p, j);
    }
  }

  lemma ViewWithin(env: Env, r: Rule, events: seq<Attributed>, e: Attributed, s: nat, stop: nat)
    requires r.sequence.Some? && s <= stop <= |events| && GroupWithin(env, r, events, e, s, stop)
    requires Faithful(SequenceGroupBy(r.sequence.value), events) && Faithful(SequenceGroupBy(r.sequence.value), [e])
    ensures Within(KeyView(env, r, events, SequenceKey(r, e))[s..stop], SequenceSize(env, r.sequence.value))
  {
    hide KeyView, Key, InGroupMatch, SameGroup, AnyHit, SequenceSize;
    var seg := KeyView(env, r, events, SequenceKey(r, e))[s..stop];
    forall a, b | 0 <= a < |seg| && 0 <= b < |seg| && AnyHit(seg[a]) && AnyHit(seg[b])
      ensures !Expired(seg[a].time, seg[b].time, SequenceSize(env, r.sequence.value))
    {
      HitIsInGroup(env, r, events, e, s + a);
      HitIsInGroup(env, r, events, e, s + b);
    }
  }

  lemma ViewPicks(env: Env, r: Rule, events: seq<Attributed>, e: Attributed, s: nat, stop: nat, pos: seq<nat>)
    requires r.sequence.Some? && s <= stop <= |events| && GroupPicks(env, r, events, e, s, pos)
    requires forall j | 0 <= j < |pos| :: pos[j] < stop
    requires Faithful(SequenceGroupBy(r.sequence.value), events) && Faithful(SequenceGroupBy(r.sequence.value), [e])
    ensures Picks(KeyView(env, r, events, SequenceKey(r, e))[s..stop], |pos|,
                  seq(|pos|, j requires 0 <= j < |pos| => pos[j] - s))
  {
    hide KeyView, Key, GroupStep, SameGroup;
    var seg := KeyView(env, r, events, SequenceKey(r, e))[s..stop];
    forall j | 0 <= j < |pos|
      ensures |seg[pos[j] - s].hits| == |pos| && seg[pos[j] - s].hits[j]
    {
      HitIsGroupStep(env, r, events, e, pos[j], j);
    }
  }

  /** Completeness over whole runs: if the group's tracker is not half-way after the
      first s events, and from there the group's events match all steps one after
      the other while its matching events stay inside the window of each other, then the
      event of the last step raises an alert, whatever other rules and events there are. */
  lemma SequenceNeverMissed(env: Env, rules: seq<Rule>, i: nat, events: seq<Attributed>, s: nat, pos: seq<nat>,
                            e: Attributed)
    requires i < |rules| && StandsApart(rules, i) && rules[i].sequence.Some? && s <= |events|
    requires Faithful(SequenceGroupBy(rules[i].sequence.value), events)
    requires Faithful(SequenceGroupBy(rules[i].sequence.value), [e])
    requires GroupPicks(env, rules[i], events, e, s, pos) && pos != []
    requires GroupWithin(env, rules[i], events, e, s, pos[|pos| - 1] + 1)
    requires !HalfWay(KeptTracker(env, rules, events[..s], SequenceKey(rules[i], e)), |pos|)
    ensures ByRule(EmittedAt(env, rules, events, pos[|pos| - 1]), rules[i].name) != []
  {
    hide KeyView, Key, GroupStep, Run, Process, EmittedAt, KeptTracker, TrackerAfter, Observe, Within, Picks;
    var r, key, n, last := rules[i], SequenceKey(rules[i], e), |pos|, pos[|pos| - 1];
    var w, view := SequenceSize(env, r.sequence.value), KeyView(env, r, events, key);
    KeyIsOwned(r.name, SequenceGroupBy(r.sequence.value), e);
    KeptTrackerByKey(env, rules, i, events[..s], key);
    KeyPrefix(env, r, events, key, s);
    ViewWithin(env, r, events, e, s, last + 1);
    ViewPicks(env, r, events, e, s, last + 1, pos);
    KeyViewSteps(env, r, events, key);
    var t, seg := TrackerAfter(None, view[..s], w), view[s..last + 1];
    var local := seq(n, j requires 0 <= j < n => pos[j] - s);
    SequenceDetected(t, seg, w, n, local);
    TrackerAfterConcat(view[..s], seg[..last - s], w);
    assert view[..last] == view[..s] + seg[..last - s];
    assert AlertsAt(None, view, w, last) > 0;
    GroupStepSameKey(env, r, events, e, last, n - 1);
    SequenceRefinesKeys(env, rules, i, events, last);
  }

  lemma KeyPrefix(env: Env, r: Rule, events: seq<Attributed>, key: string, s: nat)
    requires r.sequence.Some? && s <= |events|
    ensures KeyView(env, r, events[..s], key) == KeyView(env, r, events, key)[..s]
  {
    if s < |events| {
      KeyViewAt(env, r, events, key, s);
    } else {
      assert events[..s] == events;
    }
  }

  // Groups whose tracker is complete

  /** How many of the rule's first n steps an event of the group matches. */
  function StepsMatched(env: Env, r: Rule, e: Attributed, x: Attributed, n: nat): nat
    requires r.sequence.Some?
  {
    if n == 0 then 0 else StepsMatched(env, r, e, x, n - 1) + if GroupStep(env, r, e, x, n - 1) then 1 else 0
  }

  /** The pairs of an event of the group, at or after position s, and a step it matches. */
  function PairsSince(env: Env, r: Rule, events: seq<Attributed>, e: Attributed, s: nat): nat
    requires r.sequence.Some?
  {
    if |events| <= s then 0
    else
      var n := |events| - 1;
      PairsSince(env, r, events[..n], e, s) + StepsMatched(env, r, e, events[n], |r.sequence.value.steps|)
  }

  /** The alerts the rule raises on events of the group at or after position s. */
  function AlertsSince(env: Env, rules: seq<Rule>, r: Rule, events: seq<Attributed>, e: Attributed, s: nat): nat
    requires r.sequence.Some?
  {
    if |events| <= s then 0
    else
      var n := |events| - 1;
      AlertsSince(env, rules, r, events[..n], e, s)
      + if SameGroup(SequenceGroupBy(r.sequence.value), events[n], e)
        then |ByRule(EmittedAt(env, rules, events, n), r.name)| else 0
  }

  lemma {:induction false} HitCountIsSteps(env: Env, r: Rule, events: seq<Attributed>, e: Attributed, p: nat, n: nat)
    requires r.sequence.Some? && p < |events| && n <= |r.sequence.value.steps|
    requires Faithful(SequenceGroupBy(r.sequence.value), events) && Faithful(SequenceGroupBy(r.sequence.value), [e])
    ensures var hits := KeyView(env, r, events, SequenceKey(r, e))[p].hits;
      n <= |hits| && HitCount(hits[..n]) == StepsMatched(env, r, e, events[p], n)
  {
    hide KeyView, Key, GroupStep, SameGroup, Faithful;
    if n > 0 {
      HitIsGroupStep(env, r, events, e, p, n - 1);
      HitCountIsSteps(env, r, events, e, p, n - 1);
      var hits := KeyView(env, r, events, SequenceKey(r, e))[p].hits;
      assert hits[..n][..n - 1] == hits[..n - 1];
    } else {
      KeyViewAt(env, r, events, SequenceKey(r, e), p);
    }
  }

  /** The last event of the group raises one alert a step, and the tracker stays. */
  lemma FinishedGroupStep(env: Env, rules: seq<Rule>, i: nat, events: seq<Attributed>, e: Attributed, t: Tracker)
    requires i < |rules| && StandsApart(rules, i) && rules[i].sequence.Some? && events != []
    requires Faithful(SequenceGroupBy(rules[i].sequence.value), events)
    requires Faithful(SequenceGroupBy(rules[i].sequence.value), [e])
    requires t.currentStep >= |rules[i].sequence.value.steps|
    requires KeptTracker(env, rules, events[..|events| - 1], SequenceKey(rules[i], e)) == Some(t)
    ensures var r, n := rules[i], |events| - 1; var s := r.sequence.value;
      && KeptTracker(env, rules, events, SequenceKey(r, e)) == Some(t)
      && (SameGroup(SequenceGroupBy(s), events[n], e) ==>
            |ByRule(EmittedAt(env, rules, events, n), r.name)| == StepsMatched(env, r, e, events[n], |s.steps|))
      && (!SameGroup(SequenceGroupBy(s), events[n], e) ==> StepsMatched(env, r, e, events[n], |s.steps|) == 0)
  {
    hide KeyView, Key, SameGroup, Run, Process, EmittedAt, KeptTracker, VisitSteps, Faithful, GroupStep, StepsMatched;
    var r, key, n := rules[i], SequenceKey(rules[i], e), |events| - 1;
    var m, w, view := |r.sequence.value.steps|, SequenceSize(env, r.sequence.value), KeyView(env, r, events, key);
    KeyIsOwned(r.name, SequenceGroupBy(r.sequence.value), e);
    KeptTrackerByKey(env, rules, i, events[..n], key);
    KeptTrackerByKey(env, rules, i, events, key);
    KeyViewAt(env, r, events, key, n);
    HitCountIsSteps(env, r, events, e, n, m);
    FinishedVisits(t, view[n], w, m);
    assert view[n].hits[..m] == view[n].hits;
    if SameGroup(SequenceGroupBy(r.sequence.value), events[n], e) {
      SameGroupSameKey(env, r, events, e, n);
      SequenceRefinesKeys(env, rules, i, events, n);
    } else {
      OutsiderMatchesNothing(env, r, e, events[n], m);
    }
  }

  lemma {:induction false} OutsiderMatchesNothing(env: Env, r: Rule, e: Attributed, x: Attributed, n: nat)
    requires r.sequence.Some? && !SameGroup(SequenceGroupBy(r.sequence.value), x, e)
    ensures StepsMatched(env, r, e, x, n) == 0
  {
    if n > 0 { OutsiderMatchesNothing(env, r, e, x, n - 1); }
  }

  lemma GroupStepSameKey(env: Env, r: Rule, events: seq<Attributed>, e: Attributed, p: nat, j: nat)
    requires r.sequence.Some? && p < |events| && GroupStep(env, r, e, events[p], j)
    requires Faithful(SequenceGroupBy(r.sequence.value), events) && Faithful(SequenceGroupBy(r.sequence.value), [e])
    ensures SequenceKey(r, events[p]) == SequenceKey(r, e)
  {
    SameGroupSameKey(env, r, events, e, p);
  }

  lemma SameGroupSameKey(env: Env, r: Rule, events: seq<Attributed>, e: Attributed, p: nat)
    requires r.sequence.Some? && p < |events| && SameGroup(SequenceGroupBy(r.sequence.value), events[p], e)
    requires Faithful(SequenceGroupBy(r.sequence.value), events) && Faithful(SequenceGroupBy(r.sequence.value), [e])
    ensures SequenceKey(r, events[p]) == SequenceKey(r, e)
  {
    hide Key, SameGroup;
    assert events[p] in events && e in [e];
    KeyIffSameGroup(r.name, SequenceGroupBy(r.sequence.value), events[p], e);
  }

  /** Complete trackers are absorbing over whole runs: once the tracker a group has in the
      engine is complete, after s events, it never changes again, and over any
      continuation the rule's alerts for the group number exactly the pairs of an event
      of the group and a step it matches, whatever the window and the other rules. */
  lemma {:induction false} FinishedGroupAlerts(env: Env, rules: seq<Rule>, i: nat, events: seq<Attributed>, s: nat,
                                               e: Attributed, t: Tracker)
    requires i < |rules| && StandsApart(rules, i) && rules[i].sequence.Some? && s <= |events|
    requires Faithful(SequenceGroupBy(rules[i].sequence.value), events)
    requires Faithful(SequenceGroupBy(rules[i].sequence.value), [e])
    requires t.currentStep >= |rules[i].sequence.value.steps|
    requires KeptTracker(env, rules, events[..s], SequenceKey(rules[i], e)) == Some(t)
    ensures KeptTracker(env, rules, events, SequenceKey(rules[i], e)) == Some(t)
    ensures AlertsSince(env, rules, rules[i], events, e, s) == PairsSince(env, rules[i], events, e, s)
  {
    hide Key, SameGroup, EmittedAt, KeptTracker, StepsMatched;
    if s == |events| {
      assert events[..s] == events;
    } else {
      var n := |events| - 1;
      assert events[..n][..s] == events[..s];
      FinishedGroupAlerts(env, rules, i, events[..n], s, e, t);
      FinishedGroupStep(env, rules, i, events, e, t);
    }
  }

  // Engines whose tracker map was never made

  /** Only sequence rules carry the name. */
  predicate SequencesOnly(rules: seq<Rule>, name: string) {
    forall r <- rules :: r.name == name ==> r.sequence.Some?
  }

  /** A sequence rule none of whose steps the event matches raises nothing on it. */
  lemma UntouchedRaisesNothing(env: Env, r: Rule, e: Attributed, st: State)
    requires r.sequence.Some? && !TouchedBy(env, r, e)
    ensures RuleStep(env, r, e, st).alerts == []
  {
    hide Key, ObsOf;
    var o := ObsOf(env, r.sequence.value, e);
    NoHitNoChange(Lookup(st.trackers, SequenceKey(r, e)), o, SequenceSize(env, r.sequence.value), |o.hits|);
  }

  /** Under such a name a rule the event does not touch adds nothing to the log. */
  lemma QuietRuleStep(env: Env, rules: seq<Rule>, e: Attributed, before: Outcome, name: string, j: nat)
    requires SequencesOnly(rules, name) && j < |rules| && !TouchedBy(env, rules[j], e)
    ensures ByRule(before.alerts + RuleStep(env, rules[j], e, before.state).alerts, name) == ByRule(before.alerts, name)
  {
    hide RuleStep, TouchedBy;
    var r, step := rules[j], RuleStep(env, rules[j], e, before.state);
    assert r in rules;
    if r.name == name {
      UntouchedRaisesNothing(env, r, e, before.state);
    }
    AlertsAreNamed(env, r, e, before.state);
    ByRuleUniform(step.alerts, r.name, name);
    ByRuleConcat(before.alerts, step.alerts, name);
  }

  lemma {:induction false} UntouchedEventIsSilent(env: Env, rules: seq<Rule>, e: Attributed, st: State,
                                                  name: string, n: nat)
    requires SequencesOnly(rules, name) && !TouchesTrackers(env, rules, e) && n <= |rules|
    ensures ByRule(ProcessFirst(env, rules, e, st, n).alerts, name) == []
  {
    hide RuleStep, TouchedBy;
    if n > 0 {
      UntouchedEventIsSilent(env, rules, e, st, name, n - 1);
      QuietRuleStep(env, rules, e, ProcessFirst(env, rules, e, st, n - 1), name, n - 1);
    }
  }

  /** On an engine whose tracker map was never made, a sequence rule cannot alert: in
      every run in which no event reaches the map, which would panic, nothing is logged
      under a name that only sequence rules carry. */
  lemma {:induction false} UntouchedSequencesAreSilent(env: Env, rules: seq<Rule>, events: seq<Attributed>,
                                                       name: string)
    requires SequencesOnly(rules, name)
    requires forall p | 0 <= p < |events| :: !TouchesTrackers(env, rules, events[p])
    ensures ByRule(Run(env, rules, events).alerts, name) == []
  {
    hide ProcessFirst, TouchesTrackers, SequencesOnly;
    if events != [] {
      var n := |events| - 1;
      UntouchedSequencesAreSilent(env, rules, events[..n], name);
      UntouchedEventIsSilent(env, rules, events[n], Run(env, rules, events[..n]).state, name, |rules|);
      RunAlerts(env, rules, events, name);
    }
  }

  lemma RunAlerts(env: Env, rules: seq<Rule>, events: seq<Attributed>, name: string)
    requires events != []
    ensures var n := |events| - 1;
      ByRule(Run(env, rules, events).alerts, name)
        == ByRule(Run(env, rules, events[..n]).alerts, name) + ByRule(EmittedAt(env, rules, events, n), name)
  {
    hide Process;
    var n := |events| - 1;
    ByRuleConcat(Run(env, rules, events[..n]).alerts, EmittedAt(env, rules, events, n), name);
  }
}
