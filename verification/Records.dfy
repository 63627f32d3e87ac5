/** What the reading loop makes of a raw record (cmd/main.go, internal/helpers). */
module Records {
  import opened Core
  import opened Wire
  import opened Sockets
  import opened Correlator

  /** `helpers.KTimeToTime`: the kernel's 64-bit counter is reinterpreted as a signed
      duration since boot. */
  function KTimeToTime(boot: int, ktime: uint64): int {
    boot + if ktime > MAX_DURATION then ktime - 0x1_0000_0000_0000_0000 else ktime
  }

  /** `helpers.NullTermStr`. */
  function NullTermStr(b: Bytes): string {
    if b == [] || b[0] == 0 then "" else [b[0] as char] + NullTermStr(b[1..])
  }

  /** `helpers.OpenFlagsToOp`: any of O_WRONLY, O_RDWR (bits 0, 1) and O_CREAT (bit 6). */
  function OpenFlagsToOp(flags: uint32): string {
    if flags % 4 != 0 || flags / 0x40 % 2 == 1 then "write" else "read"
  }

  datatype Record = Correlated(op: Op) | Direct(event: Event) | Ignored

  function DispatchRecord(boot: int, data: Bytes): Record {
    match ParseEvent(data)
    case None => Ignored
    case Some(m) =>
      var time, comm := KTimeToTime(boot, m.timestamp), NullTermStr(m.comm);
      var reported := Conn(m.srcAddr, m.srcPort, m.dstAddr, m.dstPort);
      var common := BLANK_EVENT.(
        timestamp := time, srcPID := m.pid, srcCgroupID := m.cgroupId, srcProcessName := comm);
      match m.eventType
      case 1 => Correlated(Connect(reported, Entry(time, m.cgroupId, m.pid, comm)))
      case 2 => Correlated(Accept(AcceptKey(reported), Peer(m.cgroupId, m.pid, comm)))
      case 4 => Direct(common.(
        eventType := "file_open", filePath := NullTermStr(m.filepath), fileOp := OpenFlagsToOp(m.flags)))
      case 5 => Direct(common.(
        eventType := "exec", execPath := NullTermStr(m.filepath),
        parentPID := m.ppid, parentProcessName := NullTermStr(m.parentComm)))
      case _ => Ignored
  }

  // What the parts of a record become

  /** Times count from boot; counters of 2^63 and more lie before it. */
  lemma KTimeSays(boot: int, ktime: uint64)
    ensures ktime < 0x8000_0000_0000_0000 ==> KTimeToTime(boot, ktime) == boot + ktime
    ensures ktime >= 0x8000_0000_0000_0000 ==> KTimeToTime(boot, ktime) == boot + ktime - 0x1_0000_0000_0000_0000
  {}

  /** A text is the bytes before the first zero, or all of them. */
  lemma {:induction false} NullTermSays(b: Bytes)
    ensures var t := NullTermStr(b);
      && |t| <= |b|
      && (forall i | 0 <= i < |t| :: b[i] != 0 && t[i] == b[i] as char)
      && (|t| < |b| ==> b[|t|] == 0)
  {
    if b != [] && b[0] != 0 {
      NullTermSays(b[1..]);
      var t := NullTermStr(b);
      forall i | 0 <= i < |t| ensures b[i] != 0 && t[i] == b[i] as char {
        assert i > 0 ==> b[i] == b[1..][i - 1] && t[i] == t[1..][i - 1];
      }
    }
  }

  /** Opening is writing if bit 0, bit 1 or bit 6 of the flags is set. */
  lemma OpenFlagsSay(flags: uint32)
    ensures OpenFlagsToOp(flags) ==
            if flags % 2 == 1 || flags / 2 % 2 == 1 || flags / 64 % 2 == 1 then "write" else "read"
  {
    assert flags % 4 != 0 <==> flags % 2 == 1 || flags / 2 % 2 == 1;
  }

  /** What each kind of record becomes, field by field: a connect or an accept for the
      correlator, seen from the side that started the connection, or an event. */
  lemma RecordBecomes(boot: int, data: Bytes)
    ensures |data| < 340 ==> DispatchRecord(boot, data) == Ignored
    ensures |data| >= 340 ==>
      && ParseEvent(data).Some?
      && var m := ParseEvent(data).value;
         var r, time, comm := DispatchRecord(boot, data), KTimeToTime(boot, m.timestamp), NullTermStr(m.comm);
         && (m.eventType == 1 ==>
               r == Correlated(Connect(Conn(m.srcAddr, m.srcPort, m.dstAddr, m.dstPort),
                                       Entry(time, m.cgroupId, m.pid, comm))))
         && (m.eventType == 2 ==>
               r == Correlated(Accept(Conn(m.dstAddr, m.dstPort, m.srcAddr, m.srcPort),
                                      Peer(m.cgroupId, m.pid, comm))))
         && (m.eventType == 4 ==> r.Direct? && OpensFile(r.event, m, time, comm))
         && (m.eventType == 5 ==> r.Direct? && Executes(r.event, m, time, comm))
         && (m.eventType !in {1, 2, 4, 5} ==> r == Ignored)
  {
    hide Encode, ParseEvent, NullTermStr, KTimeToTime, OpenFlagsToOp;
    DecodeEncode(data);
  }

  /** Nothing is known of a destination or of any address. */
  predicate NoPeer(e: Event) {
    && e.srcContainer.None? && e.dstContainer.None? && e.dstProcessName == "" && e.dstPID == 0
    && e.dstCgroupID == 0 && e.srcAddr == "" && e.srcPort == 0 && e.dstAddr == "" && e.dstPort == 0
  }

  predicate OpensFile(e: Event, m: MonitorEvent, time: int, comm: string) {
    && e.eventType == "file_open" && e.timestamp == time && NoPeer(e)
    && e.srcPID == m.pid && e.srcCgroupID == m.cgroupId && e.srcProcessName == comm
    && e.filePath == NullTermStr(m.filepath) && e.fileOp == OpenFlagsToOp(m.flags)
    && e.execPath == "" && e.parentPID == 0 && e.parentProcessName == ""
  }

  predicate Executes(e: Event, m: MonitorEvent, time: int, comm: string) {
    && e.eventType == "exec" && e.timestamp == time && NoPeer(e)
    && e.srcPID == m.pid && e.srcCgroupID == m.cgroupId && e.srcProcessName == comm
    && e.execPath == NullTermStr(m.filepath)
    && e.parentPID == m.ppid && e.parentProcessName == NullTermStr(m.parentComm)
    && e.filePath == "" && e.fileOp == ""
  }

  /** The record holds what a probe reported. */
  predicate Carries(m: MonitorEvent, r: Report) {
    Shaped(m) && Report(m.eventType, m.pid, m.cgroupId, m.timestamp, m.comm,
                        Conn(m.srcAddr, m.srcPort, m.dstAddr, m.dstPort)) == r
  }

  /** From kernel to key: the record of a connecting socket and the record of an
      accepting one, written to bytes and read back, become a connect and an accept
      with the tasks that ran the probes, and these are of one key exactly when the
      sockets are ends of one connection. */
  lemma MirrorRecordsMeet(boot: int, client: Sock, server: Sock, dialer: Task, accepter: Task,
                          c: MonitorEvent, a: MonitorEvent, tail: Bytes)
    requires Carries(c, ReportOf(EVENT_NET_CONNECT, dialer, client))
    requires Carries(a, ReportOf(EVENT_NET_ACCEPT, accepter, server))
    ensures var x, y := DispatchRecord(boot, Encode(c) + tail), DispatchRecord(boot, Encode(a) + tail);
      && x.Correlated? && x.op.Connect? && y.Correlated? && y.op.Accept?
      && (x.op.conn == y.op.conn <==> Mirror(client, server))
      && x.op.entry == Entry(KTimeToTime(boot, dialer.ktime), dialer.cgroupId, Pid(dialer), NullTermStr(dialer.comm))
      && y.op.peer == Peer(accepter.cgroupId, Pid(accepter), NullTermStr(accepter.comm))
  {
    hide Encode, ParseEvent, NullTermStr, Swap16, KTimeToTime;
    EncodeDecode(c, tail);
    EncodeDecode(a, tail);
    MirrorSocketsMeet(client, server);
  }
}
