/** No missed sequences: from a tracker that is not half-way, every run of matching
    events inside the window raises an alert; and what a finished tracker does. */
module SequenceCompleteness {
  import opened Core
  import opened Tracker

  function CurrentStep(t: Option<Tracker>): nat {
    match t
    case None => 0
    case Some(x) => x.currentStep
  }

  /** Some steps have been taken, but not all. */
  predicate HalfWay(t: Option<Tracker>, n: nat) {
    0 < CurrentStep(t) < n
  }

  predicate OwnWindow(t: Option<Tracker>, w: Duration) {
    t.Some? ==> t.value.window == w
  }

  /** Any two events of the segment that match something are inside the window of
      each other, whatever their order of arrival. */
  ghost predicate Within(seg: seq<Obs>, w: Duration) {
    forall i, j | 0 <= i < |seg| && 0 <= j < |seg| && AnyHit(seg[i]) && AnyHit(seg[j]) ::
      !Expired(seg[i].time, seg[j].time, w)
  }

  /** The events at pos[0] <= pos[1] <= ... match the steps 0, 1, ... up to the last. */
  ghost predicate Picks(seg: seq<Obs>, n: nat, pos: seq<nat>) {
    && |pos| == n
    && (forall j | 0 <= j < n :: pos[j] < |seg| && |seg[pos[j]].hits| == n && seg[pos[j]].hits[j])
    && (forall i, j | 0 <= i < j < n :: pos[i] <= pos[j])
  }

  // Inside the window nothing is ever reset

  /** The event is in time for the tracker and, if it matches, for itself. */
  predicate InTime(t: Option<Tracker>, o: Obs, w: Duration) {
    && OwnWindow(t, w)
    && (HalfWay(t, |o.hits|) ==> !Expired(o.time, t.value.stepTimes[0], w))
    && (AnyHit(o) ==> !Expired(o.time, o.time, w))
  }

  /** Where a half-way tracker's first time comes from. */
  predicate StartedBy(t: Option<Tracker>, o: Obs, before: Option<Tracker>) {
    HalfWay(t, |o.hits|) ==>
      || t.value.stepTimes[0] == o.time
      || (HalfWay(before, |o.hits|) && t.value.stepTimes[0] == before.value.stepTimes[0])
  }

  lemma {:induction false} VisitsClimb(t: Option<Tracker>, o: Obs, w: Duration, i: nat, j: nat)
    requires i <= j <= |o.hits| && InTime(t, o, w)
    ensures var p, q := VisitSteps(t, o, w, i).tracker, VisitSteps(t, o, w, j).tracker;
      && CurrentStep(t) <= CurrentStep(p) <= CurrentStep(q)
      && InTime(q, o, w) && StartedBy(q, o, t)
    decreases j
  {
    if j > 0 {
      if i < j {
        VisitsClimb(t, o, w, i, j - 1);
      } else {
        VisitsClimb(t, o, w, j - 1, j - 1);
      }
      if o.hits[j - 1] { assert o.hits[j - 1] in o.hits; }
    }
  }

  /** A step's own event takes a tracker that has come this far past it. */
  lemma VisitTakesStep(t: Option<Tracker>, o: Obs, w: Duration, j: nat)
    requires j < |o.hits| && o.hits[j] && InTime(t, o, w)
    requires CurrentStep(VisitSteps(t, o, w, j).tracker) >= j
    ensures CurrentStep(VisitSteps(t, o, w, j + 1).tracker) >= j + 1
  {
    VisitsClimb(t, o, w, j, j);
    assert o.hits[j] in o.hits;
  }

  /** A half-way tracker began inside the segment, or nothing ever expires. */
  ghost predicate Young(t: Option<Tracker>, seg: seq<Obs>, w: Duration, n: nat) {
    && OwnWindow(t, w)
    && (HalfWay(t, n) && w < MAX_DURATION ==>
          exists m :: 0 <= m < |seg| && AnyHit(seg[m]) && t.value.stepTimes[0] == seg[m].time)
  }

  lemma {:induction false} SegmentKeepsYoung(t: Option<Tracker>, seg: seq<Obs>, w: Duration, n: nat, p: nat)
    requires Steps(seg, n) && Within(seg, w) && Young(t, [], w, n) && p <= |seg|
    ensures Young(TrackerAfter(t, seg[..p], w), seg[..p], w, n)
    ensures p < |seg| && AnyHit(seg[p]) ==> InTime(TrackerAfter(t, seg[..p], w), seg[p], w)
  {
    if p > 0 {
      SegmentKeepsYoung(t, seg, w, n, p - 1);
      var before, o := TrackerAfter(t, seg[..p - 1], w), seg[p - 1];
      assert seg[..p][..p - 1] == seg[..p - 1];
      assert forall m | 0 <= m < p - 1 :: seg[..p][m] == seg[..p - 1][m];
      if AnyHit(o) {
        VisitsClimb(before, o, w, 0, n);
        assert seg[..p][p - 1] == o;
      } else {
        NoHitNoChange(before, o, w, n);
      }
    }
    assert forall m | 0 <= m < p :: seg[..p][m] == seg[m];
  }

  lemma {:induction false} SegmentClimbs(t: Option<Tracker>, seg: seq<Obs>, w: Duration, n: nat, p: nat, q: nat)
    requires Steps(seg, n) && Within(seg, w) && Young(t, [], w, n) && p <= q <= |seg|
    ensures CurrentStep(TrackerAfter(t, seg[..p], w)) <= CurrentStep(TrackerAfter(t, seg[..q], w))
    decreases q
  {
    if p < q {
      SegmentClimbs(t, seg, w, n, p, q - 1);
      SegmentKeepsYoung(t, seg, w, n, q - 1);
      var before, o := TrackerAfter(t, seg[..q - 1], w), seg[q - 1];
      assert seg[..q][..q - 1] == seg[..q - 1];
      if AnyHit(o) {
        VisitsClimb(before, o, w, 0, n);
      } else {
        NoHitNoChange(before, o, w, n);
      }
    }
  }

  /** By the time step j has been visited for its event, the tracker is past it. */
  lemma {:induction false} StepReached(t: Option<Tracker>, seg: seq<Obs>, w: Duration, n: nat, pos: seq<nat>, j: nat)
    requires Steps(seg, n) && Within(seg, w) && Young(t, [], w, n) && Picks(seg, n, pos) && j < n
    ensures CurrentStep(VisitSteps(TrackerAfter(t, seg[..pos[j]], w), seg[pos[j]], w, j + 1).tracker) >= j + 1
  {
    var before, o := TrackerAfter(t, seg[..pos[j]], w), seg[pos[j]];
    assert o.hits[j] in o.hits;
    SegmentKeepsYoung(t, seg, w, n, pos[j]);
    if j > 0 {
      StepReached(t, seg, w, n, pos, j - 1);
      var earlier := pos[j - 1];
      if earlier < pos[j] {
        var b, e := TrackerAfter(t, seg[..earlier], w), seg[earlier];
        assert e.hits[j - 1] in e.hits;
        SegmentKeepsYoung(t, seg, w, n, earlier);
        VisitsClimb(b, e, w, j, n);
        assert seg[..earlier + 1][..earlier] == seg[..earlier];
        SegmentClimbs(t, seg, w, n, earlier + 1, pos[j]);
        VisitsClimb(before, o, w, 0, j);
      }
    }
    VisitTakesStep(before, o, w, j);
  }

  /** Completeness: however other events interleave, after the event of step j the
      tracker is past step j, and the event of the last step raises an alert. */
  lemma SequenceDetected(t: Option<Tracker>, seg: seq<Obs>, w: Duration, n: nat, pos: seq<nat>)
    requires n > 0 && Steps(seg, n) && Within(seg, w) && Picks(seg, n, pos)
    requires OwnWindow(t, w) && (HalfWay(t, n) ==> w == MAX_DURATION)
    ensures forall j | 0 <= j < n :: CurrentStep(TrackerAfter(t, seg[..pos[j] + 1], w)) >= j + 1
    ensures AlertsAt(t, seg, w, pos[n - 1]) > 0
  {
    forall j | 0 <= j < n ensures CurrentStep(TrackerAfter(t, seg[..pos[j] + 1], w)) >= j + 1 {
      var o := seg[pos[j]];
      StepReached(t, seg, w, n, pos, j);
      SegmentKeepsYoung(t, seg, w, n, pos[j]);
      assert o.hits[j] in o.hits;
      VisitsClimb(TrackerAfter(t, seg[..pos[j]], w), o, w, j + 1, n);
      assert seg[..pos[j] + 1][..pos[j]] == seg[..pos[j]];
    }
    StepReached(t, seg, w, n, pos, n - 1);
  }

  // The limit: a half-way tracker swallows the event that resets it

  /** Every qualifying segment that follows raises its alert. */
  ghost predicate Detects(t: Option<Tracker>, n: nat, w: Duration)
    requires n > 0
  {
    forall seg: seq<Obs>, pos: seq<nat> | Picks(seg, n, pos) ::
      Steps(seg, n) && Within(seg, w) ==> AlertsAt(t, seg, w, pos[n - 1]) > 0
  }

  /** A complete sequence, one event a step, that starts just after the window of a
      half-way tracker has closed. */
  function LateSegment(t: Tracker, n: nat): seq<Obs>
    requires t.currentStep > 0
  {
    seq(n, j => Obs(t.stepTimes[0] + t.window + 1, seq(n, i => i == j)))
  }

  lemma {:induction false} OnlyHit(t: Option<Tracker>, o: Obs, w: Duration, j: nat, i: nat)
    requires i <= |o.hits| && j < |o.hits| && forall k | 0 <= k < |o.hits| :: o.hits[k] <==> k == j
    ensures VisitSteps(t, o, w, i) == if i <= j then Progress(t, 0) else VisitStep(Progress(t, 0), o, w, j)
  {
    if i > 0 { OnlyHit(t, o, w, j, i - 1); }
  }

  lemma {:induction false} LateSegmentRuns(t: Tracker, n: nat, m: nat)
    requires 0 < t.currentStep < n && t.window < MAX_DURATION && m <= n
    ensures TrackerAfter(Some(t), LateSegment(t, n)[..m], t.window) ==
            Some(if m <= t.currentStep then t else t.(currentStep := 0, stepTimes := []))
    ensures m > 0 ==> AlertsAt(Some(t), LateSegment(t, n), t.window, m - 1) == 0
  {
    var seg := LateSegment(t, n);
    if m == 0 {
      assert seg[..0] == [];
    } else {
      LateSegmentRuns(t, n, m - 1);
      assert seg[..m][..m - 1] == seg[..m - 1];
      OnlyHit(TrackerAfter(Some(t), seg[..m - 1], t.window), seg[m - 1], t.window, m - 1, n);
    }
  }

  lemma LateSegmentMissed(t: Tracker, n: nat)
    requires 0 < t.currentStep < n && 0 <= t.window < MAX_DURATION
    ensures !Detects(Some(t), n, t.window)
  {
    var seg, pos := LateSegment(t, n), seq(n, j => j);
    assert Picks(seg, n, pos) && Steps(seg, n) && Within(seg, t.window);
    LateSegmentRuns(t, n, n);
  }

  /** Exactly the trackers that are not half-way detect every sequence that follows,
      unless the window never closes or is negative, when no two events qualify. */
  lemma DetectsIff(t: Tracker, n: nat)
    requires n > 0
    ensures Detects(Some(t), n, t.window)
            <==> !(0 < t.currentStep < n) || t.window < 0 || t.window == MAX_DURATION
    ensures Detects(None, n, t.window)
  {
    var w := t.window;
    forall seg: seq<Obs>, pos: seq<nat> | Picks(seg, n, pos) && Steps(seg, n) && Within(seg, w)
      ensures AlertsAt(None, seg, w, pos[n - 1]) > 0
      ensures !(0 < t.currentStep < n) || w < 0 || w == MAX_DURATION ==> AlertsAt(Some(t), seg, w, pos[n - 1]) > 0
    {
      assert seg[pos[0]].hits[0] in seg[pos[0]].hits;
      assert !Expired(seg[pos[0]].time, seg[pos[0]].time, w);
      SequenceDetected(None, seg, w, n, pos);
      if !(0 < t.currentStep < n) || w == MAX_DURATION {
        SequenceDetected(Some(t), seg, w, n, pos);
      }
    }
    if 0 < t.currentStep < n && 0 <= w < MAX_DURATION { LateSegmentMissed(t, n); }
  }

  // Finished trackers

  function HitCount(hits: seq<bool>): nat {
    if hits == [] then 0 else HitCount(hits[..|hits| - 1]) + if hits[|hits| - 1] then 1 else 0
  }

  lemma {:induction false} FinishedVisits(t: Tracker, o: Obs, w: Duration, i: nat)
    requires t.currentStep >= |o.hits| && i <= |o.hits|
    ensures VisitSteps(Some(t), o, w, i) == Progress(Some(t), HitCount(o.hits[..i]))
  {
    if i > 0 {
      FinishedVisits(t, o, w, i - 1);
      assert o.hits[..i][..i - 1] == o.hits[..i - 1];
    }
  }

  function TotalAlerts(t: Option<Tracker>, h: seq<Obs>, w: Duration): nat {
    if h == [] then 0
    else
      var n := |h| - 1;
      TotalAlerts(t, h[..n], w) + Observe(TrackerAfter(t, h[..n], w), h[n], w).alerts
  }

  /** The (event, step) pairs of a history that match. */
  function TotalHits(h: seq<Obs>): nat {
    if h == [] then 0 else TotalHits(h[..|h| - 1]) + HitCount(h[|h| - 1].hits)
  }

  /** A tracker past the last step never changes again, and from then on every matching
      step of every event raises one alert, whatever the window. */
  lemma {:induction false} FinishedIsAbsorbing(t: Tracker, h: seq<Obs>, w: Duration, n: nat)
    requires Steps(h, n) && t.currentStep >= n
    ensures TrackerAfter(Some(t), h, w) == Some(t)
    ensures TotalAlerts(Some(t), h, w) == TotalHits(h)
  {
    if h != [] {
      var init, o := h[..|h| - 1], h[|h| - 1];
      FinishedIsAbsorbing(t, init, w, n);
      FinishedVisits(t, o, w, n);
      assert o.hits[..n] == o.hits;
    }
  }
}
