/** The address fields the kernel probes report, and the keys under which the two
    ends of a connection meet (bpf/monitor.c, internal/correlator/correlator.go). */
module Sockets {
  import opened Core

  const AF_INET: uint16 := 2
  const EVENT_NET_CONNECT: uint8 := 1
  const EVENT_NET_ACCEPT: uint8 := 2

  /** `bpf_htons` on a little-endian machine: the two bytes trade places. */
  function Swap16(x: uint16): uint16 {
    x % 0x100 * 0x100 + x / 0x100
  }

  /** The socket fields the probes read; the peer's port is in network order. */
  datatype Sock = Sock(family: uint16, receiveAddr: uint32, peerAddr: uint32, port: uint16, peerPortNet: uint16)

  /** The task a probe runs in: what the kernel helpers answer about it. */
  datatype Task = Task(pidTgid: uint64, cgroupId: uint64, ktime: uint64, comm: seq<uint8>)

  /** What both probes report for a socket in a task. */
  datatype Report = Report(
    eventType: uint8,
    pid: uint32,
    cgroupId: uint64,
    timestamp: uint64,
    comm: seq<uint8>,
    conn: Conn)

  /** The process is the upper half of the combined identifier. */
  function Pid(task: Task): uint32 {
    task.pidTgid / 0x1_0000_0000
  }

  function ReportOf(kind: uint8, task: Task, sk: Sock): Report {
    Report(kind, Pid(task), task.cgroupId, task.ktime, task.comm, LocalThenPeer(sk))
  }

  /** A ring-buffer record, filled in through a pointer. */
  class RingRecord {
    var eventType: uint8
    var pid: uint32
    var cgroupId: uint64
    var timestamp: uint64
    var comm: seq<uint8>
    var srcAddr: uint32
    var srcPort: uint16
    var dstAddr: uint32
    var dstPort: uint16

    constructor ()
    {
      eventType, pid, cgroupId, timestamp, comm := 0, 0, 0, 0, [];
      srcAddr, srcPort, dstAddr, dstPort := 0, 0, 0, 0;
    }

    function Value(): Report
      reads this
    {
      Report(eventType, pid, cgroupId, timestamp, comm, Conn(srcAddr, srcPort, dstAddr, dstPort))
    }

    method FillCommonFields(kind: uint8, task: Task)
      modifies `eventType, `pid, `cgroupId, `timestamp, `comm
      ensures Value() == Report(kind, Pid(task), task.cgroupId, task.ktime, task.comm, old(Value()).conn)
    {
      eventType := kind;
      pid := task.pidTgid / 0x1_0000_0000;
      cgroupId := task.cgroupId;
      timestamp := task.ktime;
      comm := task.comm;
    }
  }

  /** Nothing is submitted for a null socket, for another address family, or when the
      ring buffer had no room and the reserved record is null. */
  method TcpConnect(sk: Option<Sock>, task: Task, event: RingRecord?) returns (submitted: bool)
    modifies event
    ensures submitted <==> sk.Some? && sk.value.family == AF_INET && event != null
    ensures submitted ==> event.Value() == ReportOf(EVENT_NET_CONNECT, task, sk.value)
    ensures submitted ==>
      && event.eventType == 1 && event.pid == task.pidTgid / 0x1_0000_0000 && event.cgroupId == task.cgroupId
      && event.timestamp == task.ktime && event.comm == task.comm
      && event.srcAddr == sk.value.receiveAddr && event.srcPort == sk.value.port
      && event.dstAddr == sk.value.peerAddr && OnWire(sk.value.peerPortNet, event.dstPort)
    ensures !submitted && event != null ==> unchanged(event)
  {
    if sk.None? || sk.value.family != AF_INET || event == null {
      return false;
    }
    event.FillCommonFields(EVENT_NET_CONNECT, task);
    event.srcAddr := sk.value.receiveAddr;
    event.dstAddr := sk.value.peerAddr;
    event.srcPort := sk.value.port;
    event.dstPort := Swap16(sk.value.peerPortNet);
    SwapIffOnWire(sk.value.peerPortNet, event.dstPort);
    return true;
  }

  method InetCskAccept(sk: Option<Sock>, task: Task, event: RingRecord?) returns (submitted: bool)
    modifies event
    ensures submitted <==> sk.Some? && sk.value.family == AF_INET && event != null
    ensures submitted ==> event.Value() == ReportOf(EVENT_NET_ACCEPT, task, sk.value)
    ensures submitted ==>
      && event.eventType == 2 && event.pid == task.pidTgid / 0x1_0000_0000 && event.cgroupId == task.cgroupId
      && event.timestamp == task.ktime && event.comm == task.comm
      && event.srcAddr == sk.value.receiveAddr && event.srcPort == sk.value.port
      && event.dstAddr == sk.value.peerAddr && OnWire(sk.value.peerPortNet, event.dstPort)
    ensures !submitted && event != null ==> unchanged(event)
  {
    if sk.None? || sk.value.family != AF_INET || event == null {
      return false;
    }
    event.FillCommonFields(EVENT_NET_ACCEPT, task);
    event.srcAddr := sk.value.receiveAddr;
    event.dstAddr := sk.value.peerAddr;
    event.srcPort := sk.value.port;
    event.dstPort := Swap16(sk.value.peerPortNet);
    SwapIffOnWire(sk.value.peerPortNet, event.dstPort);
    return true;
  }

  /** The key of a started connection that has not been accepted yet. */
  datatype Conn = Conn(srcAddr: uint32, srcPort: uint16, dstAddr: uint32, dstPort: uint16)

  function LocalThenPeer(sk: Sock): Conn {
    Conn(sk.receiveAddr, sk.port, sk.peerAddr, Swap16(sk.peerPortNet))
  }

  /** The key an accept looks up: the reporting side is the destination. */
  function AcceptKey(reported: Conn): Conn {
    Conn(reported.dstAddr, reported.dstPort, reported.srcAddr, reported.srcPort)
  }

  /** The law of the swap: the two bytes trade places. */
  lemma SwapBytes(high: uint8, low: uint8)
    ensures Swap16(high + 0x100 * low) == 0x100 * high + low
  {}

  lemma SwapTwice(x: uint16)
    ensures Swap16(Swap16(x)) == x
    ensures Swap16(x) % 0x100 == x / 0x100 && Swap16(x) / 0x100 == x % 0x100
  {
    var low, high := x % 0x100, x / 0x100;
    assert x == high * 0x100 + low;
    assert Swap16(x) % 0x100 == high && Swap16(x) / 0x100 == low;
  }

  /** A port as it stands on the wire, high byte first, read as a little-endian number. */
  predicate OnWire(net: uint16, port: uint16) {
    net % 0x100 == port / 0x100 && net / 0x100 == port % 0x100
  }

  lemma SwapIffOnWire(net: uint16, port: uint16)
    ensures Swap16(net) == port <==> OnWire(net, port)
  {}

  /** The two sockets are the ends of one connection: each one's peer is the other,
      the ports as they stand on the wire. */
  predicate Mirror(client: Sock, server: Sock) {
    && client.receiveAddr == server.peerAddr
    && client.peerAddr == server.receiveAddr
    && OnWire(client.peerPortNet, server.port)
    && OnWire(server.peerPortNet, client.port)
  }

  /** A connect and an accept meet on one key exactly when their sockets are the two
      ends of the same connection. */
  lemma MirrorSocketsMeet(client: Sock, server: Sock)
    ensures LocalThenPeer(client) == AcceptKey(LocalThenPeer(server)) <==> Mirror(client, server)
  {
    hide Swap16, OnWire;
    SwapIffOnWire(client.peerPortNet, server.port);
    SwapIffOnWire(server.peerPortNet, client.port);
  }
}
