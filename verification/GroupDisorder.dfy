/** What events out of order do to the rules of a running engine: how far apart the
    events behind a sequence alert can be, and how far a threshold count can be off. */
module GroupDisorder {
  import opened Core
  import opened Rules
  import opened GroupKey
  import opened Engine
  import opened RuleIsolation
  import opened GroupRefinement
  import opened SlidingWindow
  import opened Tracker
  import opened SequenceDisorder
  import Ports

  // Sequence rules

  /** A chain behind the alert whose events are all within w of its first, both ways. */
  ghost predicate NearGroupChain(env: Env, r: Rule, events: seq<Attributed>, p: nat, w: Duration, k: nat, idx: seq<nat>)
    requires r.sequence.Some? && p < |events|
  {
    && GroupChain(env, r, events, p, k, idx)
    && forall j | 1 <= j < |idx| :: WithinBy(events[idx[0]].timestamp, events[idx[j]].timestamp, w)
  }

  ghost predicate HasNearGroupChain(env: Env, r: Rule, events: seq<Attributed>, p: nat, w: Duration)
    requires r.sequence.Some? && p < |events|
  {
    exists k: nat, idx: seq<nat> :: NearGroupChain(env, r, events, p, w, k, idx)
  }

  /** The rule raises an alert at position p of a stream of disorder d. */
  ghost predicate AlertsLate(env: Env, rules: seq<Rule>, i: nat, events: seq<Attributed>, p: nat, d: nat) {
    && i < |rules| && StandsApart(rules, i) && rules[i].sequence.Some? && p < |events|
    && Faithful(SequenceGroupBy(rules[i].sequence.value), events)
    && Disorder(Timestamps(events), d)
    && ByRule(EmittedAt(env, rules, events, p), rules[i].name) != []
  }

  /** Behind every alert of every sequence rule of n steps and window w, in every rule
      set and on every stream of disorder d, stands a chain that is near. */
  ghost predicate RunAlertsAreNear(n: nat, w: Duration, d: nat) {
    forall env: Env, rules: seq<Rule>, i: nat, events: seq<Attributed>, p: nat
      | AlertsLate(env, rules, i, events, p, d) && |rules[i].sequence.value.steps| == n
        && SequenceSize(env, rules[i].sequence.value) == w ::
      HasNearGroupChain(env, rules[i], events, p, w)
  }

  function Mark(j: nat): string {
    seq(j + 1, _ => 'x')
  }

  /** A rule whose step j matches just the events of type Mark(j). */
  function MarkRule(n: nat): Rule {
    var steps := seq(n, j requires 0 <= j < n => BLANK_BLOCK.(eventType := Mark(j)));
    Rule("", "", "", "", None, [], [], DetectConfig("", 0, "", []), Some(SequenceConfig("", [], steps)))
  }

  function MarkEvents(a: int, b: int, n: nat): (events: seq<Attributed>)
    ensures |events| == n
  {
    seq(n, j requires 0 <= j < n => EventFrom("").(eventType := Mark(j), timestamp := if j == 0 then a else b))
  }

  function WindowEnv(w: Duration): Env {
    Env((pattern: string, value: string) => None, (text: string) => Some(w))
  }

  lemma MarkMatches(a: int, b: int, n: nat, w: Duration, i: nat, j: nat)
    requires i < n && j < n
    ensures BlockMatches(WindowEnv(w).glob, MarkRule(n).sequence.value.steps[i], MarkEvents(a, b, n)[j]) <==> i == j
  {
    assert |Mark(i)| == i + 1 && |Mark(j)| == j + 1;
  }

  lemma MarkFaithful(a: int, b: int, n: nat)
    ensures Faithful([SRC], MarkEvents(a, b, n))
    ensures forall i, j | 0 <= i < n && 0 <= j < n :: SameGroup([SRC], MarkEvents(a, b, n)[i], MarkEvents(a, b, n)[j])
  {
    var events := MarkEvents(a, b, n);
    forall j | 0 <= j < n ensures PlainAddresses(events[j]) {
      assert events[j].srcAddr == BLANK_EVENT.srcAddr && events[j].dstAddr == BLANK_EVENT.dstAddr;
    }
    assert DST !in [SRC];
  }

  lemma MarkView(a: int, b: int, n: nat, w: Duration, key: string)
    requires n > 0 && key == SequenceKey(MarkRule(n), MarkEvents(a, b, n)[n - 1])
    ensures KeyView(WindowEnv(w), MarkRule(n), MarkEvents(a, b, n), key) == TwoTimes(a, b, n)
  {
    hide KeyView, Key, BlockMatches, Mark, SameGroup;
    var env, r, events := WindowEnv(w), MarkRule(n), MarkEvents(a, b, n);
    MarkFaithful(a, b, n);
    forall p | 0 <= p < n ensures KeyView(env, r, events, key)[p] == TwoTimes(a, b, n)[p] {
      KeyViewAt(env, r, events, key, p);
      assert events[p] in events && events[n - 1] in events;
      KeyIffSameGroup("", [SRC], events[p], events[n - 1]);
      forall i | 0 <= i < n ensures ObsOf(env, r.sequence.value, events[p]).hits[i] <==> i == p {
        MarkMatches(a, b, n, w, i, p);
      }
      assert ObsOf(env, r.sequence.value, events[p]) == TwoTimes(a, b, n)[p];
    }
  }

  /** The alert is raised in a running engine however much earlier than a the time b is. */
  lemma MarkAlerts(a: int, b: int, n: nat, w: Duration, d: nat)
    requires n >= 2 && !Expired(b, a, w) && b >= a - d
    ensures AlertsLate(WindowEnv(w), [MarkRule(n)], 0, MarkEvents(a, b, n), n - 1, d)
  {
    hide KeyView, Key, BlockMatches, Mark, EmittedAt, Observe, TwoTimes;
    var env, r, events := WindowEnv(w), MarkRule(n), MarkEvents(a, b, n);
    SequenceRefinesKeys(env, [r], 0, events, n - 1);
    MarkView(a, b, n, w, SequenceKey(r, events[n - 1]));
    TwoTimesClimb(a, b, n, w, n);
    MarkFaithful(a, b, n);
    assert StandsApart([r], 0);
    assert Disorder(Timestamps(events), d);
  }

  lemma MarkChain(a: int, b: int, n: nat, w: Duration, k: nat, idx: seq<nat>)
    requires n >= 2
    ensures NearGroupChain(WindowEnv(w), MarkRule(n), MarkEvents(a, b, n), n - 1, w, k, idx) ==> WithinBy(a, b, w)
  {
    hide BlockMatches, Mark;
    var env, r, events := WindowEnv(w), MarkRule(n), MarkEvents(a, b, n);
    if NearGroupChain(env, r, events, n - 1, w, k, idx) {
      MarkMatches(a, b, n, w, 0, 0);
      assert GroupStep(env, r, events[n - 1], events[0], 0);
      assert idx != [] && GroupStep(env, r, events[n - 1], events[idx[0]], k + 0);
      MarkMatches(a, b, n, w, k, idx[0]);
      assert idx[0] == 0;
      assert GroupStep(env, r, events[n - 1], events[idx[1]], k + 1);
      MarkMatches(a, b, n, w, 1, idx[1]);
    }
  }

  /** The exact limit over whole runs: the events behind every sequence alert are within
      the window of the first, both ways, if and only if the rule has a single step or
      the window covers the disorder of the stream. Without that the alert is raised
      however far apart the events are. */
  lemma RunAlertsNearIff(n: nat, w: Duration, d: nat)
    ensures RunAlertsAreNear(n, w, d) <==> WindowCoversDisorder(n, w, d)
  {
    hide BlockMatches, EmittedAt, GroupChain, Key;
    if WindowCoversDisorder(n, w, d) {
      forall env: Env, rules: seq<Rule>, i: nat, events: seq<Attributed>, p: nat
        | AlertsLate(env, rules, i, events, p, d) && |rules[i].sequence.value.steps| == n
          && SequenceSize(env, rules[i].sequence.value) == w
        ensures HasNearGroupChain(env, rules[i], events, p, w)
      {
        var k, idx := SequenceAlertExplained(env, rules, i, events, p);
        CoveredIsNear(env, rules[i], events, p, d, k, idx);
        assert NearGroupChain(env, rules[i], events, p, w, k, idx);
      }
    } else {
      var (a, b) := SpreadTimes(w, d);
      MarkAlerts(a, b, n, w, d);
      var env, rules, events := WindowEnv(w), [MarkRule(n)], MarkEvents(a, b, n);
      assert AlertsLate(env, rules, 0, events, n - 1, d) && SequenceSize(env, rules[0].sequence.value) == w;
      if HasNearGroupChain(env, rules[0], events, n - 1, w) {
        var k: nat, idx: seq<nat> :| NearGroupChain(env, rules[0], events, n - 1, w, k, idx);
        MarkChain(a, b, n, w, k, idx);
      }
    }
  }

  lemma CoveredIsNear(env: Env, r: Rule, events: seq<Attributed>, p: nat, d: nat, k: nat, idx: seq<nat>)
    requires r.sequence.Some? && p < |events| && GroupChain(env, r, events, p, k, idx)
    requires WindowCoversDisorder(|r.sequence.value.steps|, SequenceSize(env, r.sequence.value), d)
    requires forall j | 1 <= j < |idx| :: events[idx[j]].timestamp >= events[idx[0]].timestamp - d
    ensures NearGroupChain(env, r, events, p, SequenceSize(env, r.sequence.value), k, idx)
  {
    hide GroupStep, GroupOpensAt;
  }

  // Threshold rules

  /** The events the rule matches are out of order by at most d. */
  ghost predicate MatchDisorder(env: Env, r: Rule, events: seq<Attributed>, d: nat) {
    forall i, j | 0 <= i < j < |events| && RuleMatches(env.glob, r, events[i]) && RuleMatches(env.glob, r, events[j]) ::
      events[j].timestamp >= events[i].timestamp - d
  }

  lemma {:induction false} GroupTimesFromEvents(env: Env, r: Rule, events: seq<Attributed>, e: Attributed, m: nat)
      returns (i: nat)
    requires m < |GroupTimes(env, r, events, e)|
    ensures i < |events| && RuleMatches(env.glob, r, events[i])
    ensures GroupTimes(env, r, events, e)[m] == events[i].timestamp
  {
    hide RuleMatches, SameGroup;
    i := |events| - 1;
    if m < |GroupTimes(env, r, events[..i], e)| { i := GroupTimesFromEvents(env, r, events[..i], e, m); }
  }

  /** No group of the rule is more out of order than the events it matches. */
  lemma {:induction false} GroupTimesDisorder(env: Env, r: Rule, events: seq<Attributed>, e: Attributed, d: nat)
    requires MatchDisorder(env, r, events, d)
    ensures Disorder(GroupTimes(env, r, events, e), d)
  {
    hide RuleMatches, SameGroup;
    if events != [] {
      var n := |events| - 1;
      GroupTimesDisorder(env, r, events[..n], e, d);
      var before, all := GroupTimes(env, r, events[..n], e), GroupTimes(env, r, events, e);
      forall a, b | 0 <= a < b < |all| ensures all[b] >= all[a] - d {
        if b < |before| {
          assert before[b] >= before[a] - d;
        } else {
          var i := GroupTimesFromEvents(env, r, events[..n], e, a);
        }
      }
    }
  }

  /** What a threshold rule counts at an event it matches, on a stream of disorder d:
      at least the group's events no older than the window behind its largest
      timestamp, at most those no older than the window and d behind the event. */
  lemma GroupCountBounds(env: Env, r: Rule, events: seq<Attributed>, p: nat, d: nat)
    requires p < |events| && RuleMatches(env.glob, r, events[p]) && MatchDisorder(env, r, events, d)
    requires ThresholdSize(env, r) < MAX_DURATION
    ensures var times, w := GroupTimes(env, r, events[..p + 1], events[p]), ThresholdSize(env, r);
      && times != []
      && CountSince(times, MaxSeen(times) - w) <= |WindowAfter(times, w)|
      && |WindowAfter(times, w)| <= CountSince(times, events[p].timestamp - w - d)
  {
    hide RuleMatches, WindowAfter, CountSince, MaxSeen, Disorder;
    var prefix := events[..p + 1];
    var times := GroupTimes(env, r, prefix, events[p]);
    assert prefix[..p] == events[..p] && times[|times| - 1] == events[p].timestamp;
    GroupTimesDisorder(env, r, prefix, events[p], d);
    WindowCount(times, ThresholdSize(env, r), d);
  }
}
