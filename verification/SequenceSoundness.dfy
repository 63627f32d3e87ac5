/** No false alarms: behind every alert of a sequence rule stands a chain of events of
    the group that matched its steps in order, inside the window. */
module SequenceSoundness {
  import opened Core
  import opened Tracker

  /** Events idx[0] <= idx[1] <= ... of the history match steps k, k + 1, ..., and the
      later ones fall inside the window of the first. */
  ghost predicate Chain(h: seq<Obs>, w: Duration, k: nat, idx: seq<nat>) {
    && (forall j | 0 <= j < |idx| :: idx[j] < |h| && k + j < |h[idx[j]].hits| && h[idx[j]].hits[k + j])
    && (forall j | 1 <= j < |idx| :: !Expired(h[idx[j]].time, h[idx[0]].time, w))
    && (forall i, j | 0 <= i < j < |idx| :: idx[i] <= idx[j])
  }

  function Times(h: seq<Obs>, idx: seq<nat>): seq<int>
    requires forall j | 0 <= j < |idx| :: idx[j] < |h|
  {
    seq(|idx|, j requires 0 <= j < |idx| => h[idx[j]].time)
  }

  /** A chain may start above step 0 only as the group's very first: no event before
      it matched any step, and its first event matched none below. */
  ghost predicate OpensGroup(h: seq<Obs>, k: nat, first: nat)
    requires first < |h| && k <= |h[first].hits|
  {
    && (forall i | 0 <= i < first :: !AnyHit(h[i]))
    && (forall j | 0 <= j < k :: !h[first].hits[j])
  }

  /** The chain that explains a tracker's state: as many events as steps taken, whose
      times it holds, the first one twice if the chain started above step 0. */
  ghost predicate Explains(h: seq<Obs>, w: Duration, t: Tracker, k: nat, idx: seq<nat>) {
    && Chain(h, w, k, idx)
    && t.window == w
    && t.currentStep == k + |idx|
    && (t.currentStep == 0 <==> idx == [])
    && (idx == [] ==> k == 0)
    && t.stepTimes == (if k == 0 then [] else [h[idx[0]].time]) + Times(h, idx)
    && (k > 0 ==> OpensGroup(h, k, idx[0]))
  }

  lemma ChainGrows(h: seq<Obs>, o: Obs, w: Duration, t: Tracker, k: nat, idx: seq<nat>)
    requires Explains(h, w, t, k, idx)
    ensures Explains(h + [o], w, t, k, idx)
  {
    var g := h + [o];
    assert forall i | 0 <= i < |h| :: g[i] == h[i];
    assert Times(g, idx) == Times(h, idx);
  }

  /** Taking the next step extends the chain by the newest event. */
  lemma ChainExtends(h: seq<Obs>, o: Obs, w: Duration, t: Tracker, k: nat, idx: seq<nat>)
    requires Explains(h + [o], w, t, k, idx) && 0 < t.currentStep < |o.hits|
    requires o.hits[t.currentStep] && !Expired(o.time, t.stepTimes[0], w)
    ensures Explains(h + [o], w, Advance(t, t.currentStep, o.time), k, idx + [|h|])
  {
    var g, longer := h + [o], idx + [|h|];
    assert t.stepTimes[0] == g[idx[0]].time;
    assert Times(g, longer) == Times(g, idx) + [o.time];
    assert Chain(g, w, k, longer);
  }

  /** A tracker made at step k explains itself by the newest event, which opens the
      group, unless its window is negative and it resets at once. */
  lemma ChainOpens(h: seq<Obs>, o: Obs, w: Duration, k: nat)
    requires 0 < k < |o.hits| && o.hits[k] && !Expired(o.time, o.time, w)
    requires (forall j | 0 <= j < |h| :: !AnyHit(h[j])) && (forall j | 0 <= j < k :: !o.hits[j])
    ensures Explains(h + [o], w, Advance(TrackerState(k, [o.time], w), k, o.time), k, [|h|])
  {
    var g := h + [o];
    assert g[|h|] == o && Times(g, [|h|]) == [o.time];
    assert forall j | 0 <= j < |h| :: g[j] == h[j];
  }

  lemma ChainStarts(h: seq<Obs>, o: Obs, w: Duration, t: Tracker)
    requires 0 < |o.hits| && o.hits[0] && t.currentStep == 0 && t.window == w
    ensures Explains(h + [o], w, Advance(t, 0, o.time), 0, [|h|])
  {
    var g := h + [o];
    assert g[|h|] == o && Times(g, [|h|]) == [o.time];
  }

  lemma ChainResets(h: seq<Obs>, w: Duration)
    ensures Explains(h, w, TrackerState(0, [], w), 0, [])
  {
    assert Times(h, []) == [];
  }

  /** During the loop over the steps of one event every tracker keeps its explanation. */
  lemma {:induction false} VisitExplained(h: seq<Obs>, o: Obs, w: Duration, t: Option<Tracker>, i: nat, k: nat,
                                          idx: seq<nat>)
      returns (k': nat, idx': seq<nat>)
    requires i <= |o.hits|
    requires t.Some? ==> Explains(h, w, t.value, k, idx)
    requires t.None? ==> forall j | 0 <= j < |h| :: !AnyHit(h[j])
    ensures var p := VisitSteps(t, o, w, i).tracker;
      if p.Some? then Explains(h + [o], w, p.value, k', idx')
      else t.None? && forall j | 0 <= j < i :: !o.hits[j]
  {
    hide Chain, OpensGroup, Times, AnyHit;
    if i == 0 {
      k', idx' := k, idx;
      if t.Some? { ChainGrows(h, o, w, t.value, k, idx); }
      return;
    }
    var s := i - 1;
    var p := VisitSteps(t, o, w, s).tracker;
    k', idx' := VisitExplained(h, o, w, t, s, k, idx);
    if !o.hits[s] { return; }
    var x := Found(p, o, w, s);
    if x.currentStep != s { return; }
    if s == 0 {
      ChainStarts(h, o, w, x);
      k', idx' := 0, [|h|];
    } else if Expired(o.time, x.stepTimes[0], w) {
      ChainResets(h + [o], w);
      k', idx' := 0, [];
    } else if p.None? {
      ChainOpens(h, o, w, s);
      k', idx' := s, [|h|];
    } else {
      ChainExtends(h, o, w, x, k', idx');
      idx' := idx' + [|h|];
    }
  }

  /** After any history a tracker has an explanation; a group that matched nothing yet
      has no tracker. */
  lemma {:induction false} TrackerExplained(h: seq<Obs>, w: Duration) returns (k: nat, idx: seq<nat>)
    ensures var t := TrackerAfter(None, h, w);
      if t.Some? then Explains(h, w, t.value, k, idx) else forall j | 0 <= j < |h| :: !AnyHit(h[j])
  {
    k, idx := 0, [];
    if h != [] {
      var init, o := h[..|h| - 1], h[|h| - 1];
      k, idx := TrackerExplained(init, w);
      k, idx := VisitExplained(init, o, w, TrackerAfter(None, init, w), |o.hits|, k, idx);
      assert h == init + [o];
    }
  }

  /** Alerts are raised only by a tracker that stands past the last step. */
  lemma {:induction false} AlertNeedsCompletion(t: Option<Tracker>, o: Obs, w: Duration, i: nat)
    requires i <= |o.hits| && VisitSteps(t, o, w, i).alerts > 0
    ensures var p := VisitSteps(t, o, w, i).tracker; p.Some? && p.value.currentStep >= |o.hits|
  {
    if i > 0 {
      var p := VisitSteps(t, o, w, i - 1);
      if p.alerts > 0 { AlertNeedsCompletion(t, o, w, i - 1); }
    }
  }

  /** Soundness: behind every alert stands a chain from some step k to the last, all
      of its events no later than the alerting one and inside the window of the first.
      k is 0 unless the chain opens the group above step 0. */
  lemma {:induction false} AlertHasChain(h: seq<Obs>, n: nat, w: Duration, p: nat) returns (k: nat, idx: seq<nat>)
    requires Steps(h, n) && p < |h| && AlertsAt(None, h, w, p) > 0
    ensures k + |idx| == n && Chain(h[..p + 1], w, k, idx)
    ensures k > 0 ==> idx != [] && OpensGroup(h, k, idx[0])
  {
    var g := h[..p + 1];
    assert g[..p] == h[..p];
    k, idx := TrackerExplained(g, w);
    AlertNeedsCompletion(TrackerAfter(None, h[..p], w), h[p], w, n);
    BoundedStep(g, n, w);
    assert forall i | 0 <= i < |g| :: g[i] == h[i];
  }

  lemma {:induction false} BoundedVisit(t: Option<Tracker>, o: Obs, w: Duration, i: nat)
    requires i <= |o.hits| && (t.Some? ==> t.value.currentStep <= |o.hits|)
    ensures var p := VisitSteps(t, o, w, i).tracker; p.Some? ==> p.value.currentStep <= |o.hits|
  {
    if i > 0 { BoundedVisit(t, o, w, i - 1); }
  }

  lemma {:induction false} BoundedStep(h: seq<Obs>, n: nat, w: Duration)
    requires Steps(h, n)
    ensures var t := TrackerAfter(None, h, w); t.Some? ==> t.value.currentStep <= n
  {
    if h != [] {
      var init := h[..|h| - 1];
      BoundedStep(init, n, w);
      BoundedVisit(TrackerAfter(None, init, w), h[|h| - 1], w, n);
    }
  }
}
