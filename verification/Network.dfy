/** Printing of IPv4 addresses (internal/helpers/network.go). */
module Network {
  import opened Core
  import opened LittleEndian
  import opened Text

  function DecimalParts(bytes: seq<uint8>): seq<string> {
    seq(|bytes|, i requires 0 <= i < |bytes| => Decimal(bytes[i]))
  }

  /** `net.IP.String` of four bytes. */
  function Dotted(bytes: seq<uint8>): string {
    Join(DecimalParts(bytes), '.')
  }

  function DottedQuad(data: uint32): string {
    Dotted(ToBytes(data, 4))
  }

  /** `binary.LittleEndian.PutUint32`. */
  method PutUint32(buffer: array<uint8>, v: uint32)
    requires buffer.Length >= 4
    modifies buffer
    ensures buffer[..4] == ToBytes(v, 4)
    ensures buffer[4..] == old(buffer[4..])
  {
    FourBytes(v);
    buffer[0] := v % 0x100;
    buffer[1] := v / 0x100 % 0x100;
    buffer[2] := v / 0x1_0000 % 0x100;
    buffer[3] := v / 0x100_0000 % 0x100;
    assert buffer[..4] == [buffer[0], buffer[1], buffer[2], buffer[3]];
  }

  lemma FourBytes(v: uint32)
    ensures ToBytes(v, 4) == [v % 0x100, v / 0x100 % 0x100, v / 0x1_0000 % 0x100, v / 0x100_0000 % 0x100]
  {
    var v1 := v / 0x100;
    var v2 := v1 / 0x100;
    var v3 := v2 / 0x100;
    assert v2 == v / 0x1_0000;
    assert v3 == v / 0x100_0000;
    assert ToBytes(v3, 1) == [v3 % 0x100];
    assert ToBytes(v2, 2) == [v2 % 0x100, v3 % 0x100];
    assert ToBytes(v1, 3) == [v1 % 0x100, v2 % 0x100, v3 % 0x100];
  }

  /** The printed text, spelled out: the least significant byte comes first. */
  lemma DottedQuadText(data: uint32, a: uint8, b: uint8, c: uint8, d: uint8)
    requires data == Number4(a, b, c, d)
    ensures DottedQuad(data) == Decimal(a) + "." + Decimal(b) + "." + Decimal(c) + "." + Decimal(d)
  {
    hide Decimal, Join, ToBytes;
    LowBytes(data, a, b, c, d);
    FourBytes(data);
    assert DecimalParts([a, b, c, d]) == [Decimal(a), Decimal(b), Decimal(c), Decimal(d)];
    JoinFour(Decimal(a), Decimal(b), Decimal(c), Decimal(d), '.');
  }

  lemma LowBytes(data: uint32, a: uint8, b: uint8, c: uint8, d: uint8)
    requires data == Number4(a, b, c, d)
    ensures data % 0x100 == a && data / 0x100 % 0x100 == b
    ensures data / 0x1_0000 % 0x100 == c && data / 0x100_0000 % 0x100 == d
  {
    assert data / 0x100 == b + 0x100 * c + 0x1_0000 * d;
    assert data / 0x1_0000 == c + 0x100 * d;
    assert data / 0x100_0000 == d;
  }

  lemma JoinFour(a: string, b: string, c: string, d: string, sep: char)
    ensures Join([a, b, c, d], sep) == a + [sep] + b + [sep] + c + [sep] + d
  {
    assert [a, b, c, d][1..] == [b, c, d] && [b, c, d][1..] == [c, d] && [c, d][1..] == [d];
    assert Join([c, d], sep) == c + [sep] + d;
    assert Join([b, c, d], sep) == b + [sep] + (c + [sep] + d);
    assert Join([a, b, c, d], sep) == a + [sep] + (b + [sep] + (c + [sep] + d));
  }

  method BytesToIPv4(data: uint32) returns (s: string)
    ensures s == DottedQuad(data)
  {
    var ip := new uint8[4];
    PutUint32(ip, data);
    assert ip[..4] == ip[..];
    s := Dotted(ip[..]);
  }

  /** No two addresses print alike. */
  lemma DottedQuadInjective(m: uint32, n: uint32)
    ensures DottedQuad(m) == DottedQuad(n) <==> m == n
  {
    if DottedQuad(m) == DottedQuad(n) {
      var x, y := ToBytes(m, 4), ToBytes(n, 4);
      var a, b := DecimalParts(x), DecimalParts(y);
      forall i | 0 <= i < 4 ensures Count(a[i], '.') == Count(b[i], '.') {
        CountFree(a[i], '.');
        CountFree(b[i], '.');
      }
      JoinInjective(a, b, '.');
      forall i | 0 <= i < 4 ensures x[i] == y[i] {
        assert a[i] == b[i];
        DecimalInjective(x[i], y[i]);
      }
      assert x == y;
      Widths();
      FromToBytes(m, 4);
      FromToBytes(n, 4);
    }
  }

  lemma {:induction false} JoinFree(parts: seq<string>, sep: char, c: char)
    requires sep != c && forall i | 0 <= i < |parts| :: c !in parts[i]
    ensures c !in Join(parts, sep)
  {
    if |parts| > 1 { JoinFree(parts[1..], sep, c); }
  }

  /** A printed address holds no colon, so it never blurs the fields of a group key. */
  lemma DottedQuadColonFree(data: uint32)
    ensures ':' !in DottedQuad(data)
  {
    JoinFree(DecimalParts(ToBytes(data, 4)), '.', ':');
  }
}
