/**
  Fixed-width unsigned integers and the 4-byte big-endian encoding the device
  uses for track positions (Go's binary.BigEndian.PutUint32 and Uint32).
  Integers are unbounded in Dafny, so the widths are subset types and every
  byte is computed explicitly with Euclidean division by powers of 256, which
  agrees with Go's unsigned shifts because nothing here is negative.
 */
module BigEndian {

  type uint8 = x: int | 0 <= x < 0x100
  type uint16 = x: int | 0 <= x < 0x1_0000
  type uint32 = x: int | 0 <= x < 0x1_0000_0000

  /** The four bytes of `x`, most significant first. */
  function PutUint32(x: uint32): (b: seq<uint8>)
    ensures |b| == 4
    ensures (b[0] as int) * 0x100_0000 + (b[1] as int) * 0x1_0000 + (b[2] as int) * 0x100 + b[3] == x
  {
    var lo := x % 0x100;
    var r1 := x / 0x100;
    var mid := r1 % 0x100;
    var r2 := r1 / 0x100;
    [r2 / 0x100, r2 % 0x100, mid, lo]
  }

  /** The value of four bytes read most significant first. */
  function Uint32(b: seq<uint8>): (x: uint32)
    requires |b| == 4
    ensures x % 0x100 == b[3]
  {
    (((b[0] as int) * 0x100 + b[1]) * 0x100 + b[2]) * 0x100 + b[3]
  }

  /** Reading back what PutUint32 wrote gives the original value. */
  lemma DecodeEncode(x: uint32)
    ensures Uint32(PutUint32(x)) == x
  {
  }

  /** Every 4-byte sequence is the encoding of the value it decodes to, so
      the encoding is a bijection between uint32 and 4-byte sequences. */
  lemma EncodeDecode(b: seq<uint8>)
    requires |b| == 4
    ensures PutUint32(Uint32(b)) == b
  {
    var x := Uint32(b);
    var r2 := (b[0] as int) * 0x100 + b[1];
    var r1 := r2 * 0x100 + b[2];
    assert x / 0x100 == r1 && x % 0x100 == b[3];
    assert r1 / 0x100 == r2 && r1 % 0x100 == b[2];
    assert r2 / 0x100 == b[0] && r2 % 0x100 == b[1];
  }

  /** Distinct positions never share an encoding. */
  lemma EncodingInjective(x: uint32, y: uint32)
    ensures PutUint32(x) == PutUint32(y) <==> x == y
  {
  }

  /** The worked example: 12345 ms is written as 00 00 30 39. */
  lemma EncodeExample()
    ensures PutUint32(12345) == [0x00, 0x00, 0x30, 0x39]
  {
  }
}
