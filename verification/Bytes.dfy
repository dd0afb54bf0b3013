/** Fixed-width integers as byte strings, in both byte orders. */
module Bytes {
  import opened Basics

  function U16BE(x: u16): (b: seq<byte>)
    ensures |b| == 2
  {
    [x / 0x100, x % 0x100]
  }

  function ToU16BE(b: seq<byte>): u16
    requires |b| == 2
  {
    b[0] as int * 0x100 + b[1] as int
  }

  function U16LE(x: u16): (b: seq<byte>)
    ensures |b| == 2
  {
    [x % 0x100, x / 0x100]
  }

  function ToU16LE(b: seq<byte>): u16
    requires |b| == 2
  {
    b[1] as int * 0x100 + b[0] as int
  }

  /** Most significant byte first. */
  function U32BE(x: u32): (b: seq<byte>)
    ensures |b| == 4
  {
    U16BE(x / 0x1_0000) + U16BE(x % 0x1_0000)
  }

  function ToU32BE(b: seq<byte>): u32
    requires |b| == 4
  {
    ToU16BE(b[..2]) as int * 0x1_0000 + ToU16BE(b[2..]) as int
  }

  /** Least significant byte first. */
  function U32LE(x: u32): (b: seq<byte>)
    ensures |b| == 4
  {
    U16LE(x % 0x1_0000) + U16LE(x / 0x1_0000)
  }

  function ToU32LE(b: seq<byte>): u32
    requires |b| == 4
  {
    ToU16LE(b[2..]) as int * 0x1_0000 + ToU16LE(b[..2]) as int
  }

  // ----- what each byte weighs -----

  /** The number with these bytes, most significant first. */
  function Weigh(a: int, b: int, c: int, d: int): int {
    16777216 * a + 65536 * b + 256 * c + d
  }

  lemma Weights16(b: seq<byte>)
    requires |b| == 2
    ensures ToU16BE(b) == Weigh(0, 0, b[0], b[1]) && ToU16LE(b) == Weigh(0, 0, b[1], b[0])
  {
  }

  lemma Weights32(b: seq<byte>)
    requires |b| == 4
    ensures ToU32BE(b) == Weigh(b[0], b[1], b[2], b[3]) && ToU32LE(b) == Weigh(b[3], b[2], b[1], b[0])
  {
  }

  lemma Rewritten16(b: seq<byte>)
    requires |b| == 2
    ensures U16BE(ToU16BE(b)) == b && U16LE(ToU16LE(b)) == b
  {
  }

  lemma Halves(hi: u16, lo: u16)
    ensures (hi * 0x1_0000 + lo) / 0x1_0000 == hi && (hi * 0x1_0000 + lo) % 0x1_0000 == lo
  {
  }

  /** The bytes of a number are those it was read from. */
  lemma Rewritten32(b: seq<byte>)
    requires |b| == 4
    ensures U32BE(ToU32BE(b)) == b && U32LE(ToU32LE(b)) == b
  {
    Rewritten16(b[..2]);
    Rewritten16(b[2..]);
    Halves(ToU16BE(b[..2]), ToU16BE(b[2..]));
    Halves(ToU16LE(b[2..]), ToU16LE(b[..2]));
    assert b[..2] + b[2..] == b;
  }

  lemma U16Inverse(x: u16)
    ensures ToU16BE(U16BE(x)) == x && ToU16LE(U16LE(x)) == x
  {
  }

  lemma U32Inverse(x: u32)
    ensures ToU32BE(U32BE(x)) == x && ToU32LE(U32LE(x)) == x
  {
    var hi: u16, lo: u16 := x / 0x1_0000, x % 0x1_0000;
    U16Inverse(hi);
    U16Inverse(lo);
    assert (U16BE(hi) + U16BE(lo))[..2] == U16BE(hi) && (U16BE(hi) + U16BE(lo))[2..] == U16BE(lo);
    assert (U16LE(lo) + U16LE(hi))[..2] == U16LE(lo) && (U16LE(lo) + U16LE(hi))[2..] == U16LE(hi);
  }
}
