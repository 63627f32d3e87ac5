/** The per-group sliding window of threshold rules (internal/ruleengine/engine.go).
    Timestamps need not arrive in order: a connection event is processed when it is
    accepted but carries the time at which it was started. */
module SlidingWindow {
  import opened Core

  /** Drop expired timestamps from the front, stopping at the first that is not. */
  function Evict(times: seq<int>, now: int, w: Duration): seq<int> {
    if |times| > 0 && Expired(now, times[0], w) then Evict(times[1..], now, w) else times
  }

  function Added(times: seq<int>, now: int, w: Duration): seq<int> {
    Evict(times + [now], now, w)
  }

  /** The timestamps a fresh window holds after a history of events. */
  function WindowAfter(h: seq<int>, w: Duration): seq<int> {
    if h == [] then []
    else Added(WindowAfter(h[..|h| - 1], w), h[|h| - 1], w)
  }

  datatype Window = Window(times: seq<int>, size: Duration, threshold: int)

  function AddTo(th: Window, timestamp: int): Window {
    th.(times := Added(th.times, timestamp, th.size))
  }

  class ThresholdWindow {
    var timestamps: seq<int>
    var windowSize: Duration
    var threshold: int

    function Value(): Window
      reads this
    {
      Window(timestamps, windowSize, threshold)
    }

    constructor (windowSize: Duration, threshold: int)
      ensures Value() == Window([], windowSize, threshold)
    {
      timestamps := [];
      this.windowSize := windowSize;
      this.threshold := threshold;
    }

    method AddEvent(timestamp: int) returns (count: nat)
      modifies this`timestamps
      ensures timestamps == Added(old(timestamps), timestamp, windowSize)
      ensures count == |timestamps|
    {
      timestamps := timestamps + [timestamp];
      var now := timestamp;
      while |timestamps| > 0 && Expired(now, timestamps[0], windowSize)
        invariant Evict(timestamps, now, windowSize) == Evict(old(timestamps) + [timestamp], now, windowSize)
        decreases |timestamps|
      {
        timestamps := timestamps[1..];
      }
      count := |timestamps|;
    }
  }

  // What the count means

  function MaxSeen(h: seq<int>): int
    requires h != []
  {
    if |h| == 1 then h[0]
    else
      var m := MaxSeen(h[..|h| - 1]);
      if h[|h| - 1] > m then h[|h| - 1] else m
  }

  /** How many timestamps of the history are at or after the cutoff. */
  function CountSince(h: seq<int>, cutoff: int): nat {
    if h == [] then 0
    else CountSince(h[..|h| - 1], cutoff) + if h[|h| - 1] >= cutoff then 1 else 0
  }

  /** No timestamp is more than d behind one that arrived before it. */
  ghost predicate Disorder(h: seq<int>, d: nat) {
    forall i, j | 0 <= i < j < |h| :: h[j] >= h[i] - d
  }

  /** Eviction takes a prefix: every timestamp before position k has expired, and the
      one at k, if there is one, has not. */
  lemma {:induction false} EvictTakesPrefix(times: seq<int>, now: int, w: Duration) returns (k: nat)
    ensures k <= |times| && Evict(times, now, w) == times[k..]
    ensures k < |times| ==> !Expired(now, times[k], w)
    ensures forall i | 0 <= i < k :: Expired(now, times[i], w)
  {
    k := 0;
    if |times| > 0 && Expired(now, times[0], w) {
      var k' := EvictTakesPrefix(times[1..], now, w);
      assert times[1..][k'..] == times[k' + 1..];
      forall i | 0 < i <= k' ensures Expired(now, times[i], w) {
        assert times[i] == times[1..][i - 1];
      }
      k := k' + 1;
    }
  }

  lemma {:induction false} MaxSeenBounds(h: seq<int>)
    requires h != []
    ensures MaxSeen(h) >= h[|h| - 1]
    ensures |h| > 1 ==> MaxSeen(h) >= MaxSeen(h[..|h| - 1])
    ensures forall i | 0 <= i < |h| :: h[i] <= MaxSeen(h)
  {
    if |h| > 1 {
      MaxSeenBounds(h[..|h| - 1]);
      forall i | 0 <= i < |h| ensures h[i] <= MaxSeen(h) {
        if i < |h| - 1 { assert h[i] == h[..|h| - 1][i]; }
      }
    }
  }

  /** Whatever the order of arrival, the window holds the suffix of the history from
      some position k; the entry at k is inside the window of the newest event, and
      all before k are older than the window counted back from the largest timestamp. */
  lemma {:induction false} WindowIsSuffix(h: seq<int>, w: Duration) returns (k: nat)
    ensures k <= |h| && WindowAfter(h, w) == h[k..]
    ensures k < |h| ==> !Expired(h[|h| - 1], h[k], w)
    ensures forall i | 0 <= i < k :: Expired(MaxSeen(h), h[i], w)
  {
    hide Evict, MaxSeen;
    k := 0;
    if h != [] {
      var g, now := h[..|h| - 1], h[|h| - 1];
      var s := WindowIsSuffix(g, w);
      assert g[s..] + [now] == h[s..];
      var e := EvictTakesPrefix(h[s..], now, w);
      k := s + e;
      assert h[s..][e..] == h[k..];
      assert k < |h| ==> h[k] == h[s..][e];
      MaxSeenBounds(h);
      forall i | 0 <= i < k ensures Expired(MaxSeen(h), h[i], w) {
        if i < s {
          assert g != [] && g[i] == h[i] && Expired(MaxSeen(g), g[i], w);
        } else {
          assert h[i] == h[s..][i - s] && Expired(now, h[s..][i - s], w);
        }
      }
    }
  }

  lemma {:induction false} CountSinceSplit(h: seq<int>, s: nat, cutoff: int)
    requires s <= |h|
    ensures CountSince(h, cutoff) == CountSince(h[..s], cutoff) + CountSince(h[s..], cutoff)
  {
    if s == |h| {
      assert h[..s] == h && h[s..] == [];
    } else {
      var g := h[..|h| - 1];
      CountSinceSplit(g, s, cutoff);
      assert g[..s] == h[..s];
      assert h[s..][..|h| - s - 1] == g[s..];
    }
  }

  lemma {:induction false} CountSinceExtremes(h: seq<int>, cutoff: int)
    ensures CountSince(h, cutoff) <= |h|
    ensures (forall i | 0 <= i < |h| :: h[i] < cutoff) ==> CountSince(h, cutoff) == 0
    ensures (forall i | 0 <= i < |h| :: h[i] >= cutoff) ==> CountSince(h, cutoff) == |h|
  {
    if h != [] { CountSinceExtremes(h[..|h| - 1], cutoff); }
  }

  lemma {:induction false} WindowCountLower(h: seq<int>, w: Duration)
    requires h != [] && w < MAX_DURATION
    ensures CountSince(h, MaxSeen(h) - w) <= |WindowAfter(h, w)|
  {
    var s := WindowIsSuffix(h, w);
    var low := MaxSeen(h) - w;
    CountSinceSplit(h, s, low);
    CountSinceExtremes(h[..s], low);
    CountSinceExtremes(h[s..], low);
  }

  lemma {:induction false} WindowCountUpper(h: seq<int>, w: Duration, d: nat)
    requires h != [] && w < MAX_DURATION && Disorder(h, d)
    ensures |WindowAfter(h, w)| <= CountSince(h, h[|h| - 1] - w - d)
  {
    var s := WindowIsSuffix(h, w);
    var cutoff := h[|h| - 1] - w - d;
    CountSinceSplit(h, s, cutoff);
    forall i | 0 <= i < |h| - s ensures h[s..][i] >= cutoff {
      assert h[s..][i] == h[s + i];
    }
    CountSinceExtremes(h[s..], cutoff);
  }

  /** The count an event is judged by, for histories out of order by at most d: at
      least the events no older than the window behind the largest timestamp, at
      most those no older than the window and d behind the newest event. The largest
      duration never expires anything; a negative one expires everything. */
  lemma {:induction false} WindowCount(h: seq<int>, w: Duration, d: nat)
    requires h != []
    ensures w < MAX_DURATION ==> CountSince(h, MaxSeen(h) - w) <= |WindowAfter(h, w)|
    ensures w < MAX_DURATION && Disorder(h, d) ==> |WindowAfter(h, w)| <= CountSince(h, h[|h| - 1] - w - d)
    ensures w == MAX_DURATION ==> WindowAfter(h, w) == h
    ensures w < 0 ==> WindowAfter(h, w) == []
  {
    var s := WindowIsSuffix(h, w);
    if s > 0 { assert MaxSeen(h) - h[0] > w; }
    if w < 0 { NegativeWindowEmpty(h, w); }
    if w < MAX_DURATION {
      WindowCountLower(h, w);
      if Disorder(h, d) { WindowCountUpper(h, w, d); }
    }
  }

  lemma {:induction false} NegativeWindowEmpty(h: seq<int>, w: Duration)
    requires w < 0
    ensures WindowAfter(h, w) == []
  {
    if h != [] {
      NegativeWindowEmpty(h[..|h| - 1], w);
      var now := h[|h| - 1];
      assert Evict([now][1..], now, w) == [];
      assert [] + [now] == [now];
    }
  }

  /** On a history in time order the count is exact: the number of events in the
      closed window that ends at the newest one. */
  lemma {:induction false} WindowExact(h: seq<int>, w: Duration)
    requires h != [] && w < MAX_DURATION
    requires forall i, j | 0 <= i < j < |h| :: h[i] <= h[j]
    ensures |WindowAfter(h, w)| == CountSince(h, h[|h| - 1] - w)
  {
    WindowCount(h, w, 0);
    MaxSeenOrdered(h);
  }

  lemma {:induction false} MaxSeenOrdered(h: seq<int>)
    requires h != []
    requires forall i, j | 0 <= i < j < |h| :: h[i] <= h[j]
    ensures MaxSeen(h) == h[|h| - 1]
  {
    if |h| > 1 {
      MaxSeenOrdered(h[..|h| - 1]);
      assert h[|h| - 2] <= h[|h| - 1];
    }
  }

  /** All expired timestamps stand before all others. */
  predicate ExpiredFirst(times: seq<int>, now: int, w: Duration) {
    forall i, j | 0 <= i < j < |times| :: Expired(now, times[j], w) ==> Expired(now, times[i], w)
  }

  lemma {:induction false} CountSinceAll(h: seq<int>, cutoff: int)
    ensures CountSince(h, cutoff) <= |h|
    ensures CountSince(h, cutoff) == |h| <==> forall i | 0 <= i < |h| :: h[i] >= cutoff
  {
    if h != [] {
      var init := h[..|h| - 1];
      CountSinceAll(init, cutoff);
      assert forall i | 0 <= i < |init| :: h[i] == init[i];
    }
  }

  /** The exact limit of a single call, in any order of arrival: eviction leaves just
      the timestamps inside the window if and only if the expired ones stand first. A
      late event that is itself expired by the next call breaks this. */
  lemma EvictionExactIff(times: seq<int>, now: int, w: Duration)
    requires w < MAX_DURATION
    ensures |Evict(times, now, w)| == CountSince(times, now - w) <==> ExpiredFirst(times, now, w)
  {
    var k := EvictTakesPrefix(times, now, w);
    var cutoff := now - w;
    CountSinceSplit(times, k, cutoff);
    CountSinceExtremes(times[..k], cutoff);
    CountSinceAll(times[k..], cutoff);
    forall i | k <= i < |times| ensures Expired(now, times[i], w) <==> times[k..][i - k] < cutoff {}
    if ExpiredFirst(times, now, w) {
      forall i | 0 <= i < |times| - k ensures times[k..][i] >= cutoff {
        if i > 0 { assert !Expired(now, times[k], w); }
      }
    } else {
      var i, j :| 0 <= i < j < |times| && Expired(now, times[j], w) && !Expired(now, times[i], w);
      assert j >= k && times[k..][j - k] < cutoff;
    }
  }

  // Whole histories

  /** The window holds exactly the history's events inside the window of the newest
      one: these stand behind all others, and they are what is held. */
  ghost predicate HoldsExactly(h: seq<int>, w: Duration, m: nat)
    requires h != [] && m <= |h|
  {
    && WindowAfter(h, w) == h[m..]
    && (forall i | 0 <= i < m :: Expired(h[|h| - 1], h[i], w))
    && (forall i | m <= i < |h| :: !Expired(h[|h| - 1], h[i], w))
  }

  /** The events inside the window of the newest one stand behind all others, and the
      first of them is inside the window of the largest timestamp as well. */
  predicate InWindowLastAndKept(h: seq<int>, w: Duration, m: nat)
    requires h != [] && m < |h|
  {
    && (forall i | 0 <= i < m :: Expired(h[|h| - 1], h[i], w))
    && (forall i | m <= i < |h| :: !Expired(h[|h| - 1], h[i], w))
    && !Expired(MaxSeen(h), h[m], w)
  }

  /** What has left the window never comes back. */
  lemma {:induction false} LostStaysLost(h: seq<int>, w: Duration, q: nat)
    requires q <= |h|
    ensures q - |WindowAfter(h[..q], w)| <= |h| - |WindowAfter(h, w)|
    decreases |h|
  {
    if q == |h| {
      assert h[..q] == h;
    } else {
      var g, now := h[..|h| - 1], h[|h| - 1];
      LostStaysLost(g, w, q);
      assert g[..q] == h[..q];
      var e := EvictTakesPrefix(WindowAfter(g, w) + [now], now, w);
    }
  }

  /** An entry larger than all before it is gone once a timestamp beyond its window
      has been seen, and all before it with it. */
  lemma LargestEntryLost(h: seq<int>, w: Duration, m: nat, q: nat)
    requires m < q < |h| && w < MAX_DURATION && 0 <= w
    requires forall i | 0 <= i < m :: h[i] < h[m]
    requires h[q] - h[m] > w
    ensures |WindowAfter(h, w)| < |h| - m
  {
    var g := h[..q + 1];
    var k := WindowIsSuffix(g, w);
    forall i | 0 <= i <= m ensures Expired(g[q], g[i], w) {}
    LostStaysLost(h, w, q + 1);
  }

  lemma {:induction false} MaxSeenOccurs(h: seq<int>) returns (q: nat)
    requires h != []
    ensures q < |h| && h[q] == MaxSeen(h)
  {
    q := |h| - 1;
    if |h| > 1 && h[q] < MaxSeen(h) { q := MaxSeenOccurs(h[..q]); }
  }

  /** The exact limit for whole histories, in any order of arrival: the window holds
      exactly the events inside it if and only if these stand behind all others and
      the first of them is inside the window of the largest timestamp too. Only then
      was no such event lost to an earlier eviction, and no other one kept. */
  lemma HistoryExactIff(h: seq<int>, w: Duration)
    requires h != [] && 0 <= w < MAX_DURATION
    ensures (exists m: nat | m <= |h| :: HoldsExactly(h, w, m))
            <==> (exists m: nat | m < |h| :: InWindowLastAndKept(h, w, m))
    ensures (exists m: nat | m <= |h| :: HoldsExactly(h, w, m))
            ==> |WindowAfter(h, w)| == CountSince(h, h[|h| - 1] - w)
  {
    if m: nat :| m <= |h| && HoldsExactly(h, w, m) {
      ExactIsKept(h, w, m);
      assert InWindowLastAndKept(h, w, m);
    } else if m: nat :| m < |h| && InWindowLastAndKept(h, w, m) {
      var k := WindowIsSuffix(h, w);
      assert k == m;
      assert HoldsExactly(h, w, m);
    }
  }

  lemma ExactIsKept(h: seq<int>, w: Duration, m: nat)
    requires h != [] && 0 <= w < MAX_DURATION && m <= |h| && HoldsExactly(h, w, m)
    ensures m < |h| && InWindowLastAndKept(h, w, m)
    ensures |WindowAfter(h, w)| == CountSince(h, h[|h| - 1] - w)
  {
    hide WindowAfter, CountSince, MaxSeen;
    var now := h[|h| - 1];
    var q := MaxSeenOccurs(h);
    MaxSeenBounds(h);
    forall i | 0 <= i < m ensures h[i] < h[m] {}
    if Expired(h[q], h[m], w) { LargestEntryLost(h, w, m, q); }
    CountSinceSplit(h, m, now - w);
    CountSinceExtremes(h[..m], now - w);
    CountSinceExtremes(h[m..], now - w);
  }

  /** Out of order the count can be too high: a late event keeps an expired one behind
      it from being evicted. */
  lemma DisorderMiscounts()
    ensures var h := [10, 0, 11]; |WindowAfter(h, 5)| == 3 && CountSince(h, 11 - 5) == 2
  {
    var h := [10, 0, 11];
    assert h[..2] == [10, 0] && h[..2][..1] == [10] && h[..2][..1][..0] == [];
    assert WindowAfter([10], 5) == [10];
    assert WindowAfter([10, 0], 5) == [10, 0];
    assert CountSince([10], 6) == 1;
    assert CountSince([10, 0], 6) == 1;
  }

  lemma TenEvictsZero()
    ensures WindowAfter([0, 10], 5) == [10] && CountSince([0, 10], -3) == 2
  {
    assert [0, 10][..1] == [0] && [0][..0] == [];
    assert WindowAfter([0], 5) == [0];
    assert CountSince([0], -3) == 1;
    assert [0] + [10] == [0, 10] && [0, 10][1..] == [10];
    assert Evict([10], 10, 5) == [10];
  }

  /** It can be too low, an alert missed: an event has already evicted one that is
      inside the window of the late event after it, although every single call is exact
      on the entries it holds. */
  lemma DisorderLosesEvents()
    ensures var h := [0, 10, 2]; |WindowAfter(h, 5)| == 2 && CountSince(h, 2 - 5) == 3
    ensures ExpiredFirst([0], 0, 5) && ExpiredFirst([0, 10], 10, 5) && ExpiredFirst([10, 2], 2, 5)
  {
    TenEvictsZero();
    assert [0, 10, 2][..2] == [0, 10];
    assert [10] + [2] == [10, 2];
  }

  /** And both together can leave the number right but not the events behind it. */
  lemma DisorderCancels()
    ensures var h := [0, 10, -10, 2];
      && WindowAfter(h, 5) == [10, -10, 2] && CountSince(h, 2 - 5) == 3
      && !exists m: nat | m <= |h| :: HoldsExactly(h, 5, m)
  {
    TenEvictsZero();
    var h := [0, 10, -10, 2];
    assert h[..3] == [0, 10, -10] && h[..3][..2] == [0, 10];
    assert [10] + [-10] == [10, -10] && [10, -10] + [2] == [10, -10, 2];
    assert WindowAfter(h[..3], 5) == [10, -10] && CountSince(h[..3], -3) == 2;
    if m: nat :| m <= |h| && HoldsExactly(h, 5, m) { ExactIsKept(h, 5, m); }
  }
}
