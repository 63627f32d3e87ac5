/** Matching connects with accepts (internal/correlator/correlator.go). Each operation
    runs under the correlator's mutex and is one step. */
module Correlator {
  import opened Core
  import opened Network
  import opened Sockets

  datatype Entry = Entry(timestamp: int, srcCgroupID: uint64, srcPID: uint32, srcProcessName: string)

  /** Who accepted. */
  datatype Peer = Peer(cgroupID: uint64, pid: uint32, processName: string)

  /** The event of a completed connection: the source from the connect, the
      destination from the accept. */
  function Connection(conn: Conn, entry: Entry, peer: Peer): Event {
    BLANK_EVENT.(
      eventType := "connection",
      timestamp := entry.timestamp,
      srcCgroupID := entry.srcCgroupID,
      srcPID := entry.srcPID,
      srcProcessName := entry.srcProcessName,
      dstCgroupID := peer.cgroupID,
      dstPID := peer.pid,
      dstProcessName := peer.processName,
      srcAddr := DottedQuad(conn.srcAddr),
      srcPort := conn.srcPort,
      dstAddr := DottedQuad(conn.dstAddr),
      dstPort := conn.dstPort)
  }

  datatype Op =
    | Connect(conn: Conn, entry: Entry)
    | Accept(conn: Conn, peer: Peer)
    | Sweep(now: int)

  type Pending = map<Conn, Entry>

  datatype State = State(pending: Pending, output: seq<Event>)

  function Swept(pending: Pending, now: int, timeout: Duration): Pending {
    map k | k in pending && !Expired(now, pending[k].timestamp, timeout) :: pending[k]
  }

  function Apply(st: State, op: Op, timeout: Duration): State {
    match op
    case Connect(k, entry) => st.(pending := st.pending[k := entry])
    case Accept(k, peer) =>
      if k in st.pending then State(st.pending - {k}, st.output + [Connection(k, st.pending[k], peer)]) else st
    case Sweep(now) => st.(pending := Swept(st.pending, now, timeout))
  }

  /** The state after a history of operations. */
  function After(h: seq<Op>, timeout: Duration): State {
    if h == [] then State(map[], [])
    else Apply(After(h[..|h| - 1], timeout), h[|h| - 1], timeout)
  }

  class Correlator {
    var pending: Pending
    const timeout: Duration
    /** Everything sent on the output channel so far. */
    var output: seq<Event>

    function Value(): State
      reads this
    {
      State(pending, output)
    }

    constructor (timeout: Duration)
      ensures Value() == After([], timeout) && this.timeout == timeout
    {
      this.timeout := timeout;
      pending, output := map[], [];
    }

    method HandleConnect(srcAddr: uint32, srcPort: uint16, dstAddr: uint32, dstPort: uint16,
                         cgroupID: uint64, pid: uint32, comm: string, timestamp: int)
      modifies this
      ensures Value() == Apply(old(Value()),
                Connect(Conn(srcAddr, srcPort, dstAddr, dstPort), Entry(timestamp, cgroupID, pid, comm)), timeout)
    {
      var conn := Conn(srcAddr, srcPort, dstAddr, dstPort);
      pending := pending[conn := Entry(timestamp, cgroupID, pid, comm)];
    }

    /** The local side received the connection, the remote side started it. */
    method HandleAccept(localAddr: uint32, localPort: uint16, remoteAddr: uint32, remotePort: uint16,
                        cgroupID: uint64, pid: uint32, comm: string)
      modifies this
      ensures Value() == Apply(old(Value()),
                Accept(AcceptKey(Conn(localAddr, localPort, remoteAddr, remotePort)), Peer(cgroupID, pid, comm)),
                timeout)
    {
      var conn := Conn(remoteAddr, remotePort, localAddr, localPort);
      if conn !in pending {
        return;
      }
      var entry := pending[conn];
      var src := BytesToIPv4(remoteAddr);
      var dst := BytesToIPv4(localAddr);
      var event := BLANK_EVENT.(
        eventType := "connection", timestamp := entry.timestamp,
        srcCgroupID := entry.srcCgroupID, srcPID := entry.srcPID, srcProcessName := entry.srcProcessName,
        dstCgroupID := cgroupID, dstPID := pid, dstProcessName := comm,
        srcAddr := src, srcPort := remotePort, dstAddr := dst, dstPort := localPort);
      output := output + [event];
      pending := pending - {conn};
    }

    /** The body of the cleanup loop. The map is walked in an unspecified order. */
    method CleanupOnce(now: int)
      modifies this
      ensures Value() == Apply(old(Value()), Sweep(now), timeout)
    {
      var todo := pending.Keys;
      while todo != {}
        invariant todo <= old(pending.Keys) && pending.Keys <= old(pending.Keys)
        invariant forall k | k in pending :: pending[k] == old(pending)[k]
        invariant forall k | k in todo :: k in pending
        invariant forall k | k in old(pending) && k !in todo ::
          k in pending <==> !Expired(now, old(pending)[k].timestamp, timeout)
        invariant output == old(output)
        decreases |todo|
      {
        var key :| key in todo;
        if Expired(now, pending[key].timestamp, timeout) {
          pending := pending - {key};
        }
        todo := todo - {key};
      }
    }
  }
}
