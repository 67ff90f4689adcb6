/** Bytes and big-endian integers, as the encoders append them. */
module Bytes {
  type Byte = x: int | 0 <= x < 256
  type U16 = x: int | 0 <= x < 0x1_0000
  type U32 = x: int | 0 <= x < 0x1_0000_0000

  lemma Associative(a: seq<Byte>, b: seq<Byte>, c: seq<Byte>)
    ensures (a + b) + c == a + (b + c)
  {
  }

  function BeU16(v: U16): (r: seq<Byte>)
    ensures |r| == 2
  {
    [v / 256, v % 256]
  }

  function BeU32(v: U32): (r: seq<Byte>)
    ensures |r| == 4
  {
    [v / 0x100_0000, v / 0x1_0000 % 256, v / 256 % 256, v % 256]
  }

  function FromBe16(s: seq<Byte>): U16
    requires |s| == 2
  {
    var hi: int, lo: int := s[0], s[1];
    hi * 256 + lo
  }

  function FromBe32(s: seq<Byte>): U32
    requires |s| == 4
  {
    var a: int, b: int, c: int, d: int := s[0], s[1], s[2], s[3];
    ((a * 256 + b) * 256 + c) * 256 + d
  }

  /** Most significant byte first. */
  lemma BigEndian(v: U16, w: U32, a: Byte, b: Byte, c: Byte, d: Byte)
    ensures BeU16(v) == [a, b] <==> v == 256 * a + b
    ensures BeU32(w) == [a, b, c, d] <==> w == 0x100_0000 * a + 0x1_0000 * b + 0x100 * c + d
  {
    BeRoundTrip(v, w);
    if w == 0x100_0000 * a + 0x1_0000 * b + 0x100 * c + d {
      assert w / 256 == 0x1_0000 * a + 0x100 * b + c && w / 0x1_0000 == 0x100 * a + b && w / 0x100_0000 == a;
    }
  }

  lemma BeRoundTrip(v: U16, w: U32)
    ensures FromBe16(BeU16(v)) == v && FromBe32(BeU32(w)) == w
  {
    assert w / 256 / 256 == w / 0x1_0000 && w / 0x1_0000 / 256 == w / 0x100_0000;
  }
}
