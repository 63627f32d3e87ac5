/** How far apart the events behind a sequence alert can be when events arrive out of
    order: the window bounds how much later than the first of a chain the others are,
    not how much earlier. */
module SequenceDisorder {
  import opened Core
  import opened Tracker
  import opened SequenceSoundness
  import opened SequenceCompleteness
  import opened SlidingWindow

  function ObsTimes(h: seq<Obs>): seq<int> {
    seq(|h|, i requires 0 <= i < |h| => h[i].time)
  }

  /** All events of the chain are within w of its first, both ways. */
  ghost predicate Near(times: seq<int>, w: Duration) {
    forall j | 1 <= j < |times| :: WithinBy(times[0], times[j], w)
  }

  predicate WithinBy(a: int, b: int, w: int) {
    a - b <= w && b - a <= w
  }

  /** A chain that AlertHasChain promises for an alert, and near as well. */
  ghost predicate NearChain(h: seq<Obs>, n: nat, w: Duration, k: nat, idx: seq<nat>) {
    && k + |idx| == n && Chain(h, w, k, idx)
    && (k > 0 ==> idx != [] && OpensGroup(h, k, idx[0]))
    && Near(Times(h, idx), w)
  }

  ghost predicate HasNearChain(h: seq<Obs>, n: nat, w: Duration) {
    exists k: nat, idx: seq<nat> :: NearChain(h, n, w, k, idx)
  }

  /** Whatever history of disorder d: behind every alert stands a near chain. */
  ghost predicate AlertsAreNear(n: nat, w: Duration, d: nat) {
    forall h: seq<Obs>, p: nat | p < |h| && Steps(h, n) && Disorder(ObsTimes(h), d) && AlertsAt(None, h, w, p) > 0 ::
      HasNearChain(h[..p + 1], n, w)
  }

  /** The condition: a single step is always near; otherwise the window must close, and
      no event may come too late for it. A negative window only lets events pass that
      are earlier than the first by at least as much. */
  predicate WindowCoversDisorder(n: nat, w: int, d: nat) {
    n < 2 || (w < MAX_DURATION && if w >= 0 then d <= w else d < -w)
  }

  /** One event a step, the first at time a and the others at time b. */
  function TwoTimes(a: int, b: int, n: nat): seq<Obs> {
    seq(n, j => Obs(if j == 0 then a else b, seq(n, i => i == j)))
  }

  /** The alert is raised as long as b is not too much later than a, however much
      earlier it is. */
  lemma {:induction false} TwoTimesClimb(a: int, b: int, n: nat, w: Duration, m: nat)
    requires !Expired(b, a, w) && 1 <= m <= n
    ensures var t := TrackerAfter(None, TwoTimes(a, b, n)[..m], w);
      t.Some? && t.value.currentStep == m && t.value.stepTimes[0] == a && t.value.window == w
    ensures AlertsAt(None, TwoTimes(a, b, n), w, m - 1) == if m == n then 1 else 0
  {
    var h := TwoTimes(a, b, n);
    assert h[..m][..m - 1] == h[..m - 1];
    if m > 1 { TwoTimesClimb(a, b, n, w, m - 1); }
    OnlyHit(TrackerAfter(None, h[..m - 1], w), h[m - 1], w, m - 1, n);
  }

  /** Only step j matches event j, so only one chain can stand behind the alert. */
  lemma TwoTimesChain(a: int, b: int, n: nat, w: Duration, k: nat, idx: seq<nat>)
    requires n >= 2
    ensures NearChain(TwoTimes(a, b, n), n, w, k, idx) ==> WithinBy(a, b, w)
  {
    var h := TwoTimes(a, b, n);
    if NearChain(h, n, w, k, idx) {
      assert h[0].hits[0] in h[0].hits;
      assert idx != [] && h[idx[0]].hits[k + 0];
      assert idx[0] == 0 && h[idx[1]].hits[k + 1];
      assert Times(h, idx)[1] - Times(h, idx)[0] == b - a;
    }
  }

  /** The exact limit: the events behind every alert are within the window of the first,
      both ways, if and only if no event is later than the window allows for. */
  lemma AlertsNearIff(n: nat, w: Duration, d: nat)
    ensures AlertsAreNear(n, w, d) <==> WindowCoversDisorder(n, w, d)
  {
    if WindowCoversDisorder(n, w, d) {
      forall h: seq<Obs>, p: nat
        | p < |h| && Steps(h, n) && Disorder(ObsTimes(h), d) && AlertsAt(None, h, w, p) > 0
        ensures HasNearChain(h[..p + 1], n, w)
      {
        var k, idx := AlertHasChain(h, n, w, p);
        var g := h[..p + 1];
        forall i, j | 0 <= i < j < |g| ensures ObsTimes(g)[j] >= ObsTimes(g)[i] - d {
          assert ObsTimes(h)[j] >= ObsTimes(h)[i] - d;
        }
        ChainIsNear(g, n, w, d, k, idx);
        assert NearChain(g, n, w, k, idx);
      }
    } else {
      var (a, b) := SpreadTimes(w, d);
      var h := TwoTimes(a, b, n);
      TwoTimesClimb(a, b, n, w, n);
      assert h[..n] == h;
      forall k: nat, idx: seq<nat> ensures !NearChain(h, n, w, k, idx) { TwoTimesChain(a, b, n, w, k, idx); }
    }
  }

  lemma ChainIsNear(h: seq<Obs>, n: nat, w: Duration, d: nat, k: nat, idx: seq<nat>)
    requires WindowCoversDisorder(n, w, d) && Disorder(ObsTimes(h), d) && Chain(h, w, k, idx) && k + |idx| == n
    ensures Near(Times(h, idx), w)
  {
    forall j | 1 <= j < |idx| ensures WithinBy(h[idx[0]].time, h[idx[j]].time, w) {
      assert !Expired(h[idx[j]].time, h[idx[0]].time, w) && idx[0] <= idx[j];
      assert idx[0] < idx[j] ==> ObsTimes(h)[idx[j]] >= ObsTimes(h)[idx[0]] - d;
    }
  }

  /** Two times in the order of arrival that are not near but do not expire. */
  function SpreadTimes(w: Duration, d: nat): (r: (int, int))
    ensures var (a, b) := r;
      !WindowCoversDisorder(2, w, d) ==> !Expired(b, a, w) && b >= a - d && !WithinBy(a, b, w)
  {
    if w == MAX_DURATION then (0, MAX_DURATION + 1) else (d, 0)
  }
}
