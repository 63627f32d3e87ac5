/** How far out of time order the correlator emits: an event carries the time of its
    connect and is emitted at its accept, and a sweep bounds how long that takes. */
module CorrelatorDisorder {
  import opened Core
  import opened Sockets
  import opened Correlator
  import opened CorrelatorHistory
  import opened SlidingWindow

  /** The operations ran at these times: a connect at most a delay after it happened, a
      sweep by its own clock, and no accept longer than a period after a sweep or after
      the start. */
  ghost predicate Clocked(h: seq<Op>, clock: seq<int>, delay: nat, period: nat) {
    && |clock| == |h|
    && (forall i, j | 0 <= i <= j < |h| :: clock[i] <= clock[j])
    && (forall c | 0 <= c < |h| && h[c].Connect? ::
          h[c].entry.timestamp <= clock[c] <= h[c].entry.timestamp + delay)
    && (forall s | 0 <= s < |h| && h[s].Sweep? :: h[s].now == clock[s])
    && (forall a | 0 <= a < |h| && h[a].Accept? ::
          clock[a] - clock[0] <= period || exists s :: 0 <= s < a && SweptLately(h, clock, period, s, a))
  }

  predicate SweptLately(h: seq<Op>, clock: seq<int>, period: nat, s: nat, a: nat)
    requires s < |h| && a < |clock| && |clock| == |h|
  {
    h[s].Sweep? && clock[a] - clock[s] <= period
  }

  /** How long an entry can have waited when it is accepted. */
  function Lag(timeout: Duration, delay: nat, period: nat): nat {
    period + if timeout > delay then timeout else delay
  }

  /** A connect that is still live at its accept happened at most the lag before it. */
  lemma MatchedLag(h: seq<Op>, clock: seq<int>, timeout: Duration, delay: nat, period: nat, a: nat, c: nat)
    requires Clocked(h, clock, delay, period) && timeout < MAX_DURATION && Matched(h, timeout, a, c)
    ensures c < |h| && h[c].Connect?
    ensures h[c].entry.timestamp <= clock[a] <= h[c].entry.timestamp + Lag(timeout, delay, period)
  {
    assert c < a && h[..a][c] == h[c];
    if clock[a] - clock[0] > period {
      var s :| 0 <= s < a && SweptLately(h, clock, period, s, a);
      if s > c { assert !Touches(h[..a][s], h[a].conn, h[c].entry.timestamp, timeout); }
    }
  }

  function EventTimes(es: seq<Event>): seq<int> {
    seq(|es|, i requires 0 <= i < |es| => es[i].timestamp)
  }

  /** The output is out of order by at most the lag. */
  lemma OutputDisorder(h: seq<Op>, clock: seq<int>, timeout: Duration, delay: nat, period: nat)
    requires Clocked(h, clock, delay, period) && timeout < MAX_DURATION
    ensures Disorder(EventTimes(After(h, timeout).output), Lag(timeout, delay, period))
  {
    hide Clocked, Lag, After;
    var output := After(h, timeout).output;
    var accepts, connects := OutputRefinesHistory(h, timeout);
    forall m, n | 0 <= m < n < |output|
      ensures EventTimes(output)[n] >= EventTimes(output)[m] - Lag(timeout, delay, period)
    {
      MatchedLag(h, clock, timeout, delay, period, accepts[m], connects[m]);
      MatchedLag(h, clock, timeout, delay, period, accepts[n], connects[n]);
      ClockOrder(h, clock, delay, period, accepts[m], accepts[n]);
    }
  }

  lemma ClockOrder(h: seq<Op>, clock: seq<int>, delay: nat, period: nat, i: nat, j: nat)
    requires Clocked(h, clock, delay, period) && i <= j < |h|
    ensures |clock| == |h| && clock[i] <= clock[j]
  {}
}
