/** Values shared by every component: machine integers, instants and durations,
    and the event and alert records of internal/core. */
module Core {
  datatype Option<+T> = None | Some(value: T)
  datatype Result<+T, +E> = Ok(value: T) | Err(error: E)

  type uint8 = x: int | 0 <= x < 0x100
  type uint16 = x: int | 0 <= x < 0x1_0000
  type uint32 = x: int | 0 <= x < 0x1_0000_0000
  type uint64 = x: int | 0 <= x < 0x1_0000_0000_0000_0000

  // An instant is a number of nanoseconds; a duration is a signed 64-bit one.
  const MAX_DURATION: int := 0x7FFF_FFFF_FFFF_FFFF
  const MIN_DURATION: int := -0x8000_0000_0000_0000
  type Duration = d: int | MIN_DURATION <= d <= MAX_DURATION
  const SECOND: Duration := 1_000_000_000

  /** `time.Time.Sub`: the difference, saturated to the range of a duration. */
  function Sub(t: int, u: int): Duration {
    if t - u > MAX_DURATION then MAX_DURATION
    else if t - u < MIN_DURATION then MIN_DURATION
    else t - u
  }

  /** The comparison every timeout and window is decided by. Saturation is visible
      only for the largest duration, which nothing ever exceeds. */
  predicate Expired(now: int, t: int, w: Duration): (r: bool)
    ensures r <==> w < MAX_DURATION && now - t > w
  {
    Sub(now, t) > w
  }

  datatype ContainerInfo = ContainerInfo(id: string, name: string, image: string)

  datatype Event = Event(
    eventType: string,
    timestamp: int,
    srcContainer: Option<ContainerInfo>,
    srcProcessName: string,
    srcPID: uint32,
    srcCgroupID: uint64,
    srcAddr: string,
    srcPort: uint16,
    dstContainer: Option<ContainerInfo>,
    dstProcessName: string,
    dstPID: uint32,
    dstCgroupID: uint64,
    dstAddr: string,
    dstPort: uint16,
    filePath: string,
    fileOp: string,
    execPath: string,
    parentPID: uint32,
    parentProcessName: string)

  const BLANK_EVENT := Event("", 0, None, "", 0, 0, "", 0, None, "", 0, 0, "", 0, "", "", "", 0, "")

  /** An event whose source container has been resolved. The rule engine reads the
      container's name without a nil check, so it may only ever be given these. */
  type Attributed = e: Event | e.srcContainer.Some?
    witness BLANK_EVENT.(srcContainer := Some(ContainerInfo("", "", "")))

  datatype Alert = Alert(
    timestamp: int,
    ruleName: string,
    severity: string,
    description: string,
    srcContainer: Option<ContainerInfo>,
    dstContainer: Option<ContainerInfo>)
}
