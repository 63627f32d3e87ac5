/** Fixed-width little-endian numbers, as encoding/binary reads and writes them. */
module LittleEndian {
  import opened Core

  function Pow256(n: nat): nat {
    if n == 0 then 1 else 0x100 * Pow256(n - 1)
  }

  function FromBytes(b: seq<uint8>): (v: nat)
    ensures v < Pow256(|b|)
  {
    if b == [] then 0 else b[0] + 0x100 * FromBytes(b[1..])
  }

  function ToBytes(v: nat, n: nat): (b: seq<uint8>)
    ensures |b| == n
  {
    if n == 0 then [] else [v % 0x100] + ToBytes(v / 0x100, n - 1)
  }

  lemma {:induction false} FromToBytes(v: nat, n: nat)
    requires v < Pow256(n)
    ensures FromBytes(ToBytes(v, n)) == v
  {
    if n > 0 {
      FromToBytes(v / 0x100, n - 1);
      assert ToBytes(v, n)[1..] == ToBytes(v / 0x100, n - 1);
    }
  }

  lemma {:induction false} ToFromBytes(b: seq<uint8>)
    ensures ToBytes(FromBytes(b), |b|) == b
  {
    hide Pow256;
    if b != [] {
      ToFromBytes(b[1..]);
      LowByte(b[0], FromBytes(b[1..]));
      assert b == [b[0]] + b[1..];
    }
  }

  lemma LowByte(low: uint8, rest: nat)
    ensures (low + 0x100 * rest) % 0x100 == low && (low + 0x100 * rest) / 0x100 == rest
  {}

  /** Numbers of two, four and eight bytes, the least significant first. */
  function Number2(a: int, b: int): int {
    a + 0x100 * b
  }

  function Number4(a: int, b: int, c: int, d: int): int {
    a + 0x100 * b + 0x1_0000 * c + 0x100_0000 * d
  }

  /** The byte order, spelled out at each width in use. */
  lemma ByteOrder(b: seq<uint8>)
    ensures |b| == 1 ==> FromBytes(b) == b[0]
    ensures |b| == 2 ==> FromBytes(b) == Number2(b[0], b[1])
    ensures |b| == 4 ==> FromBytes(b) == Number4(b[0], b[1], b[2], b[3])
    ensures |b| == 8 ==>
      FromBytes(b) == Number4(b[0], b[1], b[2], b[3]) + 0x1_0000_0000 * Number4(b[4], b[5], b[6], b[7])
  {
    if |b| >= 2 { TwoMore(b); }
    if |b| >= 4 { TwoMore(b[2..]); }
    if |b| == 8 {
      TwoMore(b[4..]);
      TwoMore(b[6..]);
      assert b[2..][2..] == b[4..] && b[4..][2..] == b[6..];
    }
  }

  lemma TwoMore(b: seq<uint8>)
    requires |b| >= 2
    ensures FromBytes(b) == Number2(b[0], b[1]) + 0x1_0000 * FromBytes(b[2..])
  {
    assert b[1..][1..] == b[2..];
  }

  lemma Widths()
    ensures Pow256(1) == 0x100 && Pow256(2) == 0x1_0000 && Pow256(4) == 0x1_0000_0000
    ensures Pow256(8) == 0x1_0000_0000_0000_0000
  {
    assert Pow256(3) == 0x100_0000;
    assert Pow256(5) == 0x100_0000_0000 && Pow256(7) == 0x100_0000_0000_0000;
  }
}
