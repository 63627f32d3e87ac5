/** The per-group tracker of a sequence rule (internal/ruleengine/sequence.go), as a
    state machine over what it is shown of each event: the time and the steps matched. */
module Tracker {
  import opened Core

  datatype TrackerState = TrackerState(currentStep: nat, stepTimes: seq<int>, window: Duration)

  /** The first step time is read without a check once a step has been taken. */
  type Tracker = t: TrackerState | t.currentStep > 0 ==> t.stepTimes != []
    witness TrackerState(0, [], 0)

  function Advance(t: Tracker, stepIndex: nat, timestamp: int): Tracker {
    if t.currentStep != stepIndex then t
    else if t.currentStep == 0 then t.(stepTimes := [timestamp], currentStep := 1)
    else if Expired(timestamp, t.stepTimes[0], t.window) then t.(currentStep := 0, stepTimes := [])
    else TrackerState(t.currentStep + 1, t.stepTimes + [timestamp], t.window)
  }

  class SequenceTracker {
    var currentStep: nat
    var stepTimes: seq<int>
    var window: Duration

    ghost predicate Valid()
      reads this
    {
      currentStep > 0 ==> stepTimes != []
    }

    function Value(): Tracker
      reads this
      requires Valid()
    {
      TrackerState(currentStep, stepTimes, window)
    }

    constructor (t: Tracker)
      ensures Valid() && Value() == t
    {
      currentStep, stepTimes, window := t.currentStep, t.stepTimes, t.window;
    }

    method AdvanceStep(stepIndex: nat, timestamp: int)
      requires Valid()
      modifies this
      ensures Valid() && Value() == Advance(old(Value()), stepIndex, timestamp)
    {
      if currentStep != stepIndex {
        return;
      }
      if currentStep == 0 {
        stepTimes := [timestamp];
        currentStep := currentStep + 1;
        return;
      }
      if Expired(timestamp, stepTimes[0], window) {
        currentStep := 0;
        stepTimes := [];
        return;
      }
      stepTimes := stepTimes + [timestamp];
      currentStep := currentStep + 1;
    }
  }

  // One event

  /** What a tracker sees of an event: its time and, step by step, whether it matches. */
  datatype Obs = Obs(time: int, hits: seq<bool>)

  /** A group's tracker, if it has one yet, and the alerts raised so far. */
  datatype Progress = Progress(tracker: Option<Tracker>, alerts: nat)

  /** The tracker a matching step works on: the group's, or a new one that already
      stands at that step. */
  function Found(t: Option<Tracker>, o: Obs, w: Duration, i: nat): Tracker {
    match t
    case Some(x) => x
    case None => TrackerState(i, [o.time], w)
  }

  /** One round of the loop over the steps. */
  function VisitStep(p: Progress, o: Obs, w: Duration, i: nat): Progress
    requires i < |o.hits|
  {
    if !o.hits[i] then p
    else
      var t := Advance(Found(p.tracker, o, w, i), i, o.time);
      Progress(Some(t), p.alerts + if t.currentStep >= |o.hits| then 1 else 0)
  }

  /** The first i rounds. */
  function VisitSteps(t: Option<Tracker>, o: Obs, w: Duration, i: nat): Progress
    requires i <= |o.hits|
  {
    if i == 0 then Progress(t, 0) else VisitStep(VisitSteps(t, o, w, i - 1), o, w, i - 1)
  }

  function Observe(t: Option<Tracker>, o: Obs, w: Duration): Progress {
    VisitSteps(t, o, w, |o.hits|)
  }

  // Whole histories

  function TrackerAfter(t: Option<Tracker>, h: seq<Obs>, w: Duration): Option<Tracker> {
    if h == [] then t
    else Observe(TrackerAfter(t, h[..|h| - 1], w), h[|h| - 1], w).tracker
  }

  /** The alerts the event at position p raises. */
  function AlertsAt(t: Option<Tracker>, h: seq<Obs>, w: Duration, p: nat): nat
    requires p < |h|
  {
    Observe(TrackerAfter(t, h[..p], w), h[p], w).alerts
  }

  /** Every event is judged against the same n steps. */
  predicate Steps(h: seq<Obs>, n: nat) {
    forall i | 0 <= i < |h| :: |h[i].hits| == n
  }

  predicate AnyHit(o: Obs) {
    true in o.hits
  }

  lemma {:induction false} NoHitNoChange(t: Option<Tracker>, o: Obs, w: Duration, i: nat)
    requires i <= |o.hits| && !AnyHit(o)
    ensures VisitSteps(t, o, w, i) == Progress(t, 0)
  {
    if i > 0 {
      NoHitNoChange(t, o, w, i - 1);
      assert o.hits[i - 1] in o.hits;
    }
  }
}
