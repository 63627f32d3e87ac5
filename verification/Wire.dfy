/** The fixed layout of the kernel's event records and their decoding
    (internal/ebpf/types.go). */
module Wire {
  import opened Core
  import opened LittleEndian

  type Bytes = seq<uint8>

  datatype MonitorEvent = MonitorEvent(
    pid: uint32,
    pad1: Bytes,
    cgroupId: uint64,
    timestamp: uint64,
    eventType: uint8,
    pad2: Bytes,
    srcAddr: uint32,
    srcPort: uint16,
    pad3: Bytes,
    dstAddr: uint32,
    dstPort: uint16,
    comm: Bytes,
    filepath: Bytes,
    pad4: Bytes,
    ppid: uint32,
    parentComm: Bytes,
    flags: uint32)

  /** The lengths of the array-typed fields. */
  predicate Shaped(e: MonitorEvent) {
    |e.pad1| == 4 && |e.pad2| == 3 && |e.pad3| == 2 && |e.comm| == 16 && |e.filepath| == 256
    && |e.pad4| == 2 && |e.parentComm| == 16
  }

  /** `binary.Size`: the field widths in order, without the C struct's tail padding. */
  const WIDTHS: seq<nat> := [4, 4, 8, 8, 1, 3, 4, 2, 2, 4, 2, 16, 256, 2, 4, 16, 4]

  /** Where field i starts. */
  function Offset(i: nat): nat
    requires i <= |WIDTHS|
  {
    if i == 0 then 0 else Offset(i - 1) + WIDTHS[i - 1]
  }

  const SIZE: nat := 340
  const C_SIZE: nat := 344

  /** Every field sits where the C compiler put it, as the layout comment records. */
  lemma OffsetsMatchC()
    ensures Offset(2) == 8 && Offset(3) == 16 && Offset(4) == 24 && Offset(6) == 28 && Offset(7) == 32
    ensures Offset(9) == 36 && Offset(10) == 40 && Offset(11) == 42 && Offset(12) == 58
    ensures Offset(14) == 316 && Offset(15) == 320 && Offset(16) == 336
    ensures Offset(17) == SIZE <= C_SIZE
  {
    assert Offset(4) == 24;
    assert Offset(7) == 32;
    assert Offset(10) == 40;
    assert Offset(13) == 314;
    assert Offset(15) == 320;
  }

  // Reading and writing field by field

  function Sum(widths: seq<nat>): nat {
    if widths == [] then 0 else widths[0] + Sum(widths[1..])
  }

  /** The chunks a reader takes off the front, one per field. */
  function Slices(data: Bytes, widths: seq<nat>): (r: seq<Bytes>)
    requires |data| >= Sum(widths)
    ensures |r| == |widths| && forall i | 0 <= i < |r| :: |r[i]| == widths[i]
  {
    if widths == [] then [] else [data[..widths[0]]] + Slices(data[widths[0]..], widths[1..])
  }

  function Flatten(chunks: seq<Bytes>): Bytes {
    if chunks == [] then [] else chunks[0] + Flatten(chunks[1..])
  }

  predicate Fitting(chunks: seq<Bytes>, widths: seq<nat>) {
    |chunks| == |widths| && forall i | 0 <= i < |chunks| :: |chunks[i]| == widths[i]
  }

  lemma {:induction false} FlattenOfSlices(data: Bytes, widths: seq<nat>)
    requires |data| >= Sum(widths)
    ensures Flatten(Slices(data, widths)) == data[..Sum(widths)]
  {
    if widths != [] {
      var w, rest := widths[0], data[widths[0]..];
      FlattenOfSlices(rest, widths[1..]);
      assert Slices(data, widths)[1..] == Slices(rest, widths[1..]);
      assert data[..w] + rest[..Sum(widths[1..])] == data[..Sum(widths)];
    }
  }

  lemma {:induction false} SlicesOfFlatten(chunks: seq<Bytes>, widths: seq<nat>, tail: Bytes)
    requires Fitting(chunks, widths)
    ensures |Flatten(chunks)| == Sum(widths) && Slices(Flatten(chunks) + tail, widths) == chunks
  {
    if chunks != [] {
      SlicesOfFlatten(chunks[1..], widths[1..], tail);
      var data := Flatten(chunks) + tail;
      assert data[..widths[0]] == chunks[0];
      assert data[widths[0]..] == Flatten(chunks[1..]) + tail;
      assert chunks == [chunks[0]] + chunks[1..];
    }
  }

  lemma {:induction false} RemainingSize(i: nat)
    requires i <= |WIDTHS|
    ensures Offset(i) + Sum(WIDTHS[i..]) == SIZE
    decreases |WIDTHS| - i
  {
    if i == |WIDTHS| {
      OffsetsMatchC();
    } else {
      RemainingSize(i + 1);
      assert WIDTHS[i..][1..] == WIDTHS[i + 1..];
    }
  }

  lemma Size()
    ensures Sum(WIDTHS) == SIZE
  {
    RemainingSize(0);
    assert WIDTHS[0..] == WIDTHS;
  }

  lemma {:induction false} SumSplit(widths: seq<nat>, k: nat)
    requires k <= |widths|
    ensures Sum(widths[..k]) + Sum(widths[k..]) == Sum(widths)
  {
    if k > 0 {
      SumSplit(widths[1..], k - 1);
      assert widths[..k][1..] == widths[1..][..k - 1];
      assert widths[1..][k - 1..] == widths[k..];
    }
  }

  lemma {:induction false} SliceAt(data: Bytes, widths: seq<nat>, k: nat)
    requires |data| >= Sum(widths) && k < |widths|
    ensures Sum(widths[..k]) + widths[k] <= |data|
    ensures Slices(data, widths)[k] == data[Sum(widths[..k])..Sum(widths[..k]) + widths[k]]
  {
    if k > 0 {
      SliceAt(data[widths[0]..], widths[1..], k - 1);
      assert widths[..k][1..] == widths[1..][..k - 1];
    }
  }

  /** The chunk read for field k is the bytes at the field's offset. */
  lemma ChunkAt(data: Bytes, k: nat)
    requires |data| >= SIZE && k < |WIDTHS|
    ensures |data| >= Sum(WIDTHS) && Offset(k) + WIDTHS[k] <= |data|
    ensures Slices(data, WIDTHS)[k] == data[Offset(k)..Offset(k) + WIDTHS[k]]
  {
    hide Sum, Offset, Slices;
    Size();
    RemainingSize(k);
    SumSplit(WIDTHS, k);
    SliceAt(data, WIDTHS, k);
  }

  function FromChunks(c: seq<Bytes>): MonitorEvent
    requires Fitting(c, WIDTHS)
  {
    Widths();
    MonitorEvent(
      FromBytes(c[0]), c[1], FromBytes(c[2]), FromBytes(c[3]), FromBytes(c[4]), c[5], FromBytes(c[6]),
      FromBytes(c[7]), c[8], FromBytes(c[9]), FromBytes(c[10]), c[11], c[12], c[13], FromBytes(c[14]),
      c[15], FromBytes(c[16]))
  }

  function ToChunks(e: MonitorEvent): (c: seq<Bytes>)
    requires Shaped(e)
    ensures Fitting(c, WIDTHS)
  {
    [ToBytes(e.pid, 4), e.pad1, ToBytes(e.cgroupId, 8), ToBytes(e.timestamp, 8), ToBytes(e.eventType, 1),
     e.pad2, ToBytes(e.srcAddr, 4), ToBytes(e.srcPort, 2), e.pad3, ToBytes(e.dstAddr, 4),
     ToBytes(e.dstPort, 2), e.comm, e.filepath, e.pad4, ToBytes(e.ppid, 4), e.parentComm,
     ToBytes(e.flags, 4)]
  }

  lemma ChunksRoundTrip(c: seq<Bytes>)
    requires Fitting(c, WIDTHS)
    ensures Shaped(FromChunks(c)) && ToChunks(FromChunks(c)) == c
  {
    forall i | 0 <= i < |c| ensures ToBytes(FromBytes(c[i]), WIDTHS[i]) == c[i] {
      ToFromBytes(c[i]);
    }
  }

  lemma FieldsRoundTrip(e: MonitorEvent)
    requires Shaped(e)
    ensures FromChunks(ToChunks(e)) == e
  {
    Widths();
    FromToBytes(e.pid, 4);
    FromToBytes(e.cgroupId, 8);
    FromToBytes(e.timestamp, 8);
    FromToBytes(e.eventType, 1);
    FromToBytes(e.srcAddr, 4);
    FromToBytes(e.srcPort, 2);
    FromToBytes(e.dstAddr, 4);
    FromToBytes(e.dstPort, 2);
    FromToBytes(e.ppid, 4);
    FromToBytes(e.flags, 4);
  }

  /** The record's fields in order, or None for input shorter than the record. */
  function ParseEvent(data: Bytes): Option<MonitorEvent> {
    Size();
    if |data| < SIZE then None else Some(FromChunks(Slices(data, WIDTHS)))
  }

  /** The fields written out in order, little-endian. */
  function Encode(e: MonitorEvent): Bytes
    requires Shaped(e)
  {
    Flatten(ToChunks(e))
  }

  /** Decoding succeeds exactly on input of at least the record's size, and writing
      the fields back gives its first 340 bytes. */
  lemma DecodeEncode(data: Bytes)
    ensures ParseEvent(data).Some? <==> |data| >= SIZE
    ensures |data| >= SIZE ==> Shaped(ParseEvent(data).value) && Encode(ParseEvent(data).value) == data[..SIZE]
  {
    hide Sum, Flatten, FromChunks, ToChunks;
    if |data| >= SIZE {
      Size();
      ChunksRoundTrip(Slices(data, WIDTHS));
      FlattenOfSlices(data, WIDTHS);
    }
  }

  /** Encoding and then decoding, with anything appended, gives the record back. */
  lemma EncodeDecode(e: MonitorEvent, tail: Bytes)
    requires Shaped(e)
    ensures |Encode(e)| == SIZE && ParseEvent(Encode(e) + tail) == Some(e)
  {
    hide Sum, FromChunks, ToChunks;
    Size();
    SlicesOfFlatten(ToChunks(e), WIDTHS, tail);
    FieldsRoundTrip(e);
  }

  /** What follows the first 340 bytes, such as the C tail padding, has no effect. */
  lemma TailIgnored(data: Bytes, tail: Bytes)
    requires |data| >= SIZE
    ensures ParseEvent(data[..SIZE] + tail) == ParseEvent(data)
  {
    DecodeEncode(data);
    EncodeDecode(ParseEvent(data).value, tail);
  }

  // Which bytes of a record each field is

  lemma ChunkIs(data: Bytes, k: nat, from: nat, to: nat)
    requires |data| >= SIZE && k < |WIDTHS| && Offset(k) == from && from + WIDTHS[k] == to
    ensures |data| >= Sum(WIDTHS) && from <= to <= |data| && Slices(data, WIDTHS)[k] == data[from..to]
  {
    hide Sum, Offset, Slices;
    ChunkAt(data, k);
  }

  lemma CommonFieldsAt(data: Bytes)
    requires |data| >= 340
    ensures ParseEvent(data).Some?
    ensures var m := ParseEvent(data).value;
      && m.pid == Number4(data[0], data[1], data[2], data[3])
      && m.cgroupId == Number4(data[8], data[9], data[10], data[11])
                       + 0x1_0000_0000 * Number4(data[12], data[13], data[14], data[15])
      && m.timestamp == Number4(data[16], data[17], data[18], data[19])
                        + 0x1_0000_0000 * Number4(data[20], data[21], data[22], data[23])
      && m.eventType == data[24]
  {
    hide Sum, Slices, Offset, FromBytes, Number4;
    OffsetsMatchC();
    OffsetZero();
    ChunkIs(data, 0, 0, 4);
    ChunkIs(data, 2, 8, 16);
    ChunkIs(data, 3, 16, 24);
    ChunkIs(data, 4, 24, 25);
    ByteOrder(data[0..4]);
    ByteOrder(data[8..16]);
    ByteOrder(data[16..24]);
    ByteOrder(data[24..25]);
  }

  lemma OffsetZero()
    ensures Offset(0) == 0
  {}

  lemma ConnectionFieldsAt(data: Bytes)
    requires |data| >= 340
    ensures ParseEvent(data).Some?
    ensures var m := ParseEvent(data).value;
      && m.srcAddr == Number4(data[28], data[29], data[30], data[31]) && m.srcPort == Number2(data[32], data[33])
      && m.dstAddr == Number4(data[36], data[37], data[38], data[39]) && m.dstPort == Number2(data[40], data[41])
  {
    hide Sum, Slices, Offset, FromBytes, Number2, Number4;
    OffsetsMatchC();
    ChunkIs(data, 6, 28, 32);
    ChunkIs(data, 7, 32, 34);
    ChunkIs(data, 9, 36, 40);
    ChunkIs(data, 10, 40, 42);
    ByteOrder(data[28..32]);
    ByteOrder(data[32..34]);
    ByteOrder(data[36..40]);
    ByteOrder(data[40..42]);
  }

  lemma ProcessFieldsAt(data: Bytes)
    requires |data| >= 340
    ensures ParseEvent(data).Some?
    ensures var m := ParseEvent(data).value;
      && m.comm == data[42..58] && m.filepath == data[58..314]
      && m.ppid == Number4(data[316], data[317], data[318], data[319])
      && m.parentComm == data[320..336]
      && m.flags == Number4(data[336], data[337], data[338], data[339])
  {
    hide Sum, Slices, Offset, FromBytes, Number4;
    OffsetsMatchC();
    ChunkIs(data, 11, 42, 58);
    ChunkIs(data, 12, 58, 314);
    ChunkIs(data, 14, 316, 320);
    ChunkIs(data, 15, 320, 336);
    ChunkIs(data, 16, 336, 340);
    ByteOrder(data[316..320]);
    ByteOrder(data[336..340]);
  }
}
