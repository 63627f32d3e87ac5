/** What the correlator holds and emits, told from the history of operations alone. */
module CorrelatorHistory {
  import opened Core
  import opened Network
  import opened Sockets
  import opened Correlator

  // Pending entries

  /** The operation ends the wait of a connect of k made at the given time. */
  predicate Touches(op: Op, k: Conn, time: int, timeout: Duration) {
    match op
    case Connect(c, _) => c == k
    case Accept(c, _) => c == k
    case Sweep(now) => Expired(now, time, timeout)
  }

  /** Position c holds a connect of k that no later operation replaced, accepted or
      swept away. */
  ghost predicate Live(h: seq<Op>, timeout: Duration, k: Conn, c: nat) {
    && c < |h| && h[c].Connect? && h[c].conn == k
    && forall j | c < j < |h| :: !Touches(h[j], k, h[c].entry.timestamp, timeout)
  }

  lemma LiveExtends(h: seq<Op>, op: Op, timeout: Duration, k: Conn, c: nat)
    requires c < |h|
    ensures Live(h + [op], timeout, k, c)
            <==> Live(h, timeout, k, c) && !Touches(op, k, h[c].entry.timestamp, timeout)
  {
    var g := h + [op];
    assert forall j | 0 <= j < |h| :: g[j] == h[j];
    if Live(g, timeout, k, c) { assert g[|h|] == op; }
  }

  lemma LiveIsUnique(h: seq<Op>, timeout: Duration, k: Conn, c: nat, d: nat)
    requires Live(h, timeout, k, c) && Live(h, timeout, k, d)
    ensures c == d
  {}

  /** The connect a pending entry comes from. */
  lemma {:induction false} PendingIsLive(h: seq<Op>, timeout: Duration, k: Conn) returns (c: nat)
    ensures k in After(h, timeout).pending ==>
      Live(h, timeout, k, c) && After(h, timeout).pending[k] == h[c].entry
  {
    c := 0;
    if h != [] {
      var init, op := h[..|h| - 1], h[|h| - 1];
      assert h == init + [op];
      c := PendingIsLive(init, timeout, k);
      if op.Connect? && op.conn == k {
        c := |init|;
      } else if k in After(h, timeout).pending {
        LiveExtends(init, op, timeout, k, c);
      }
    }
  }

  lemma {:induction false} LiveIsPending(h: seq<Op>, timeout: Duration, k: Conn, c: nat)
    requires Live(h, timeout, k, c)
    ensures k in After(h, timeout).pending && After(h, timeout).pending[k] == h[c].entry
  {
    var init, op := h[..|h| - 1], h[|h| - 1];
    assert h == init + [op];
    if c < |init| {
      LiveExtends(init, op, timeout, k, c);
      LiveIsPending(init, timeout, k, c);
    }
  }

  /** `pending` refines its history: it holds exactly the connects that are still
      live, each with the fields of its connect. */
  lemma PendingRefinesHistory(h: seq<Op>, timeout: Duration, k: Conn)
    ensures k in After(h, timeout).pending <==> exists c: nat :: Live(h, timeout, k, c)
    ensures forall c: nat | Live(h, timeout, k, c) ::
      k in After(h, timeout).pending && After(h, timeout).pending[k] == h[c].entry
  {
    var c := PendingIsLive(h, timeout, k);
    forall d: nat | Live(h, timeout, k, d)
      ensures k in After(h, timeout).pending && After(h, timeout).pending[k] == h[d].entry
    {
      LiveIsPending(h, timeout, k, d);
    }
  }

  // Emitted events

  /** The accept at position a completes the connect at position c. */
  ghost predicate Matched(h: seq<Op>, timeout: Duration, a: nat, c: nat) {
    a < |h| && h[a].Accept? && Live(h[..a], timeout, h[a].conn, c)
  }

  /** The positions of the accepts that emitted, in order. */
  function Emitters(h: seq<Op>, timeout: Duration): seq<nat> {
    if h == [] then []
    else
      var n := |h| - 1;
      Emitters(h[..n], timeout)
      + if h[n].Accept? && h[n].conn in After(h[..n], timeout).pending then [n] else []
  }

  lemma {:induction false} EmittersShape(h: seq<Op>, timeout: Duration)
    ensures |Emitters(h, timeout)| == |After(h, timeout).output|
    ensures forall m | 0 <= m < |Emitters(h, timeout)| :: Emitters(h, timeout)[m] < |h|
    ensures forall m, n | 0 <= m < n < |Emitters(h, timeout)| :: Emitters(h, timeout)[m] < Emitters(h, timeout)[n]
  {
    if h != [] { EmittersShape(h[..|h| - 1], timeout); }
  }

  lemma PrefixOfPrefix(h: seq<Op>, a: nat)
    requires a < |h|
    ensures h[..|h| - 1][..a] == h[..a]
  {}

  /** The event takes its time, source and source address from the connect, and its
      destination from the accept. */
  predicate Joins(e: Event, c: Op, a: Op) {
    && c.Connect? && a.Accept? && c.conn == a.conn
    && e.eventType == "connection"
    && e.timestamp == c.entry.timestamp
    && e.srcCgroupID == c.entry.srcCgroupID && e.srcPID == c.entry.srcPID
    && e.srcProcessName == c.entry.srcProcessName
    && e.dstCgroupID == a.peer.cgroupID && e.dstPID == a.peer.pid && e.dstProcessName == a.peer.processName
    && e.srcAddr == DottedQuad(c.conn.srcAddr) && e.srcPort == c.conn.srcPort
    && e.dstAddr == DottedQuad(c.conn.dstAddr) && e.dstPort == c.conn.dstPort
    && e.srcContainer.None? && e.dstContainer.None?
  }

  /** Each emitted event joins an accept with the connect it completed. */
  lemma {:induction false} EmittedJoins(h: seq<Op>, timeout: Duration, m: nat) returns (c: nat)
    requires m < |After(h, timeout).output|
    ensures |Emitters(h, timeout)| == |After(h, timeout).output|
    ensures var a := Emitters(h, timeout)[m];
      && Matched(h, timeout, a, c)
      && c < |h| && Joins(After(h, timeout).output[m], h[c], h[a])
  {
    EmittersShape(h, timeout);
    var n := |h| - 1;
    EmittersShape(h[..n], timeout);
    if m < |After(h[..n], timeout).output| {
      c := EmittedJoins(h[..n], timeout, m);
      PrefixOfPrefix(h, Emitters(h, timeout)[m]);
    } else {
      c := PendingIsLive(h[..n], timeout, h[n].conn);
    }
  }

  lemma {:induction false} MatchedEmits(h: seq<Op>, timeout: Duration, a: nat, c: nat)
    requires Matched(h, timeout, a, c)
    ensures a in Emitters(h, timeout)
  {
    var n := |h| - 1;
    if a == n {
      LiveIsPending(h[..n], timeout, h[n].conn, c);
    } else {
      PrefixOfPrefix(h, a);
      MatchedEmits(h[..n], timeout, a, c);
    }
  }

  lemma MatchedEndsLife(h: seq<Op>, timeout: Duration, a: nat, b: nat, c: nat)
    requires Matched(h, timeout, a, c) && a < b < |h|
    ensures h[b].Accept? ==> !Live(h[..b], timeout, h[b].conn, c)
  {
    var g := h[..b];
    assert g[a] == h[a] && g[c] == h[..a][c];
    assert Touches(g[a], g[c].conn, g[c].entry.timestamp, timeout);
  }

  /** A connect is completed by at most one accept. */
  lemma MatchedOnce(h: seq<Op>, timeout: Duration, a: nat, b: nat, c: nat)
    ensures Matched(h, timeout, a, c) && Matched(h, timeout, b, c) ==> a == b
  {
    if a < b < |h| && Matched(h, timeout, a, c) { MatchedEndsLife(h, timeout, a, b, c); }
    if b < a < |h| && Matched(h, timeout, b, c) { MatchedEndsLife(h, timeout, b, a, c); }
  }

  /** The output refines its history: its events are those of the accepts that found
      a live connect, in the order of the accepts, none missing; each takes its source
      from that connect, and no connect is used twice. */
  lemma OutputRefinesHistory(h: seq<Op>, timeout: Duration) returns (accepts: seq<nat>, connects: seq<nat>)
    ensures |accepts| == |connects| == |After(h, timeout).output|
    ensures forall m, n | 0 <= m < n < |accepts| :: accepts[m] < accepts[n] && connects[m] != connects[n]
    ensures forall m | 0 <= m < |accepts| ::
      && Matched(h, timeout, accepts[m], connects[m])
      && connects[m] < |h| && Joins(After(h, timeout).output[m], h[connects[m]], h[accepts[m]])
    ensures forall a: nat, c: nat :: Matched(h, timeout, a, c) ==> a in accepts
  {
    accepts := Emitters(h, timeout);
    EmittersShape(h, timeout);
    connects := [];
    for i := 0 to |accepts|
      invariant |connects| == i
      invariant forall m | 0 <= m < i ::
        && accepts[m] < |h| && Matched(h, timeout, accepts[m], connects[m])
        && connects[m] < |h| && Joins(After(h, timeout).output[m], h[connects[m]], h[accepts[m]])
    {
      var c := EmittedJoins(h, timeout, i);
      connects := connects + [c];
    }
    forall m, n | 0 <= m < n < |accepts| ensures accepts[m] < accepts[n] && connects[m] != connects[n] {
      MatchedOnce(h, timeout, accepts[m], accepts[n], connects[m]);
    }
    forall a: nat, c: nat | Matched(h, timeout, a, c) ensures a in accepts {
      MatchedEmits(h, timeout, a, c);
    }
  }

  // Conservation

  datatype Fate = Waiting | Emitted | Overwritten | Swept

  /** What became of the connect at position c: decided by the first later operation
      that touches it. */
  function FateOf(h: seq<Op>, timeout: Duration, c: nat): Fate
    requires c < |h| && h[c].Connect?
  {
    var n := |h| - 1;
    if c == n then Waiting
    else
      var before := FateOf(h[..n], timeout, c);
      if before != Waiting || !Touches(h[n], h[c].conn, h[c].entry.timestamp, timeout) then before
      else
        match h[n]
        case Connect(_, _) => Overwritten
        case Accept(_, _) => Emitted
        case Sweep(_) => Fate.Swept
  }

  function Connects(h: seq<Op>): set<nat> {
    set c: nat | c < |h| && h[c].Connect?
  }

  function WithFate(h: seq<Op>, timeout: Duration, f: Fate): set<nat> {
    set c: nat | c < |h| && h[c].Connect? && FateOf(h, timeout, c) == f
  }

  lemma {:induction false} WaitingIsLive(h: seq<Op>, timeout: Duration, c: nat)
    requires c < |h| && h[c].Connect?
    ensures FateOf(h, timeout, c) == Waiting <==> Live(h, timeout, h[c].conn, c)
  {
    var init, op := h[..|h| - 1], h[|h| - 1];
    assert h == init + [op];
    if c < |init| {
      WaitingIsLive(init, timeout, c);
      LiveExtends(init, op, timeout, h[c].conn, c);
    }
  }

  /** A one-to-one correspondence between two finite sets keeps their size. */
  lemma {:induction false} SameSize<A, B>(xs: set<A>, ys: set<B>, f: map<A, B>)
    requires f.Keys == xs && f.Values == ys
    requires forall x, y | x in xs && y in xs && f[x] == f[y] :: x == y
    ensures |xs| == |ys|
    decreases xs
  {
    if xs == {} {
      assert f == map[];
    } else {
      var x :| x in xs;
      var g := f - {x};
      assert g.Values == ys - {f[x]} by {
        forall y | y in ys - {f[x]} ensures y in g.Values {
          var z :| z in f && f[z] == y;
          assert z in g && g[z] == y;
        }
      }
      SameSize(xs - {x}, ys - {f[x]}, g);
    }
  }

  lemma WaitingCount(h: seq<Op>, timeout: Duration)
    ensures |WithFate(h, timeout, Waiting)| == |After(h, timeout).pending|
  {
    var waiting, pending := WithFate(h, timeout, Waiting), After(h, timeout).pending;
    var f := map c | c in waiting :: h[c].conn;
    forall c | c in waiting ensures f[c] in pending.Keys {
      WaitingIsLive(h, timeout, c);
      LiveIsPending(h, timeout, h[c].conn, c);
    }
    forall k | k in pending.Keys ensures k in f.Values {
      var c := PendingIsLive(h, timeout, k);
      WaitingIsLive(h, timeout, c);
      assert c in waiting && f[c] == k;
    }
    forall c, d | c in waiting && d in waiting && f[c] == f[d] ensures c == d {
      WaitingIsLive(h, timeout, c);
      WaitingIsLive(h, timeout, d);
      LiveIsUnique(h, timeout, f[c], c, d);
    }
    assert f.Values == pending.Keys;
    SameSize(waiting, pending.Keys, f);
    assert |pending| == |pending.Keys|;
  }

  /** The connect an accept completes is the one whose fate it decides. */
  lemma AcceptDecides(h: seq<Op>, timeout: Duration, c: nat)
    requires h != [] && c < |h| - 1 && h[c].Connect? && h[|h| - 1].Accept?
    ensures var init, op := h[..|h| - 1], h[|h| - 1];
      FateOf(h, timeout, c) == Emitted <==> FateOf(init, timeout, c) == Emitted || Live(init, timeout, op.conn, c)
  {
    var init, op := h[..|h| - 1], h[|h| - 1];
    assert init[c] == h[c];
    WaitingIsLive(init, timeout, c);
  }

  lemma {:induction false} EmittedCount(h: seq<Op>, timeout: Duration)
    ensures |WithFate(h, timeout, Emitted)| == |After(h, timeout).output|
  {
    var emitted := WithFate(h, timeout, Emitted);
    if h == [] {
      assert emitted == {};
    } else {
      var n := |h| - 1;
      var init, op := h[..n], h[n];
      EmittedCount(init, timeout);
      var before := WithFate(init, timeout, Emitted);
      if op.Accept? && op.conn in After(init, timeout).pending {
        var d := PendingIsLive(init, timeout, op.conn);
        EmittedGrows(h, timeout, d);
        assert emitted == before + {d} && d !in before;
      } else {
        EmittedSame(h, timeout);
      }
    }
  }

  lemma EmittedGrows(h: seq<Op>, timeout: Duration, d: nat)
    requires h != [] && h[|h| - 1].Accept? && Live(h[..|h| - 1], timeout, h[|h| - 1].conn, d)
    ensures var init := h[..|h| - 1];
      WithFate(h, timeout, Emitted) == WithFate(init, timeout, Emitted) + {d} && d !in WithFate(init, timeout, Emitted)
  {
    hide FateOf, Live;
    var init := h[..|h| - 1];
    LiveShape(init, timeout, h[|h| - 1].conn, d);
    WaitingIsLive(init, timeout, d);
    assert init[d] == h[d];
    forall c: nat | c < |init|
      ensures c in WithFate(h, timeout, Emitted) <==> c in WithFate(init, timeout, Emitted) || c == d
    {
      assert init[c] == h[c];
      if h[c].Connect? {
        AcceptDecides(h, timeout, c);
        if Live(init, timeout, h[|h| - 1].conn, c) { LiveIsUnique(init, timeout, h[|h| - 1].conn, c, d); }
      }
    }
  }

  lemma LiveShape(h: seq<Op>, timeout: Duration, k: Conn, c: nat)
    requires Live(h, timeout, k, c)
    ensures c < |h| && h[c].Connect? && h[c].conn == k
  {}

  lemma EmittedSame(h: seq<Op>, timeout: Duration)
    requires h != []
    requires var init, op := h[..|h| - 1], h[|h| - 1]; !(op.Accept? && op.conn in After(init, timeout).pending)
    ensures WithFate(h, timeout, Emitted) == WithFate(h[..|h| - 1], timeout, Emitted)
  {
    hide Live, After;
    var init, op := h[..|h| - 1], h[|h| - 1];
    forall c: nat | c < |h|
      ensures c in WithFate(h, timeout, Emitted) <==> c in WithFate(init, timeout, Emitted)
    {
      if c < |init| {
        assert init[c] == h[c];
        if h[c].Connect? && op.Accept? {
          AcceptDecides(h, timeout, c);
          if Live(init, timeout, op.conn, c) { LiveIsPending(init, timeout, op.conn, c); }
        }
      }
    }
  }

  lemma EveryConnectHasAFate(h: seq<Op>, timeout: Duration)
    ensures Connects(h) == WithFate(h, timeout, Waiting) + WithFate(h, timeout, Emitted)
                           + (WithFate(h, timeout, Overwritten) + WithFate(h, timeout, Fate.Swept))
  {
    hide FateOf;
  }

  lemma FatesExclude(h: seq<Op>, timeout: Duration, f: Fate, g: Fate)
    requires f != g
    ensures WithFate(h, timeout, f) !! WithFate(h, timeout, g)
  {
    hide FateOf;
  }

  lemma DisjointSize(a: set<nat>, b: set<nat>)
    requires a !! b
    ensures |a + b| == |a| + |b|
  {}

  /** Conservation: every connect was emitted, overwritten, swept away or is pending,
      exactly one of these, and the numbers add up. */
  lemma Conservation(h: seq<Op>, timeout: Duration)
    ensures |Connects(h)| == |After(h, timeout).output| + |WithFate(h, timeout, Overwritten)|
            + |WithFate(h, timeout, Fate.Swept)| + |After(h, timeout).pending|
  {
    hide WithFate, Connects, After;
    WaitingCount(h, timeout);
    EmittedCount(h, timeout);
    EveryConnectHasAFate(h, timeout);
    forall f: Fate, g: Fate | f != g ensures WithFate(h, timeout, f) !! WithFate(h, timeout, g) {
      FatesExclude(h, timeout, f, g);
    }
    var a, b, c, d := WithFate(h, timeout, Waiting), WithFate(h, timeout, Emitted),
      WithFate(h, timeout, Overwritten), WithFate(h, timeout, Fate.Swept);
    DisjointSize(a, b);
    DisjointSize(c, d);
    DisjointSize(a + b, c + d);
  }
}
