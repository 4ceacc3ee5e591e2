/** Fixed-width unsigned integers and their byte encodings.
    The network layer writes integers either in network order (big-endian,
    through hostToBig) or in host order; the host is taken to be
    little-endian, as on the x86 machines the server runs on. */
module Bytes {

  type byte = x: int | 0 <= x < 0x100
  type u16 = x: int | 0 <= x < 0x1_0000
  type u32 = x: int | 0 <= x < 0x1_0000_0000

  /** The two bytes of `x`, most significant first. */
  function BigEndian16(x: u16): (b: seq<byte>)
    ensures |b| == 2 && (b[0] as int) * 0x100 + (b[1] as int) == x
  {
    [x / 0x100, x % 0x100]
  }

  /** Reads a big-endian 16-bit value from the first two bytes of `b`. */
  function ReadBigEndian16(b: seq<byte>): (x: u16)
    requires |b| >= 2
    ensures BigEndian16(x) == b[..2]
  {
    (b[0] as int) * 0x100 + (b[1] as int)
  }

  /** The four bytes of `x`, most significant first. */
  function BigEndian32(x: u32): (b: seq<byte>)
    ensures |b| == 4
    ensures (((b[0] as int) * 0x100 + (b[1] as int)) * 0x100 + (b[2] as int)) * 0x100 + (b[3] as int) == x
  {
    BigEndian16(x / 0x1_0000) + BigEndian16(x % 0x1_0000)
  }

  /** Reads a big-endian 32-bit value from the first four bytes of `b`. */
  function ReadBigEndian32(b: seq<byte>): (x: u32)
    requires |b| >= 4
    ensures BigEndian32(x) == b[..4]
  {
    var hi := ReadBigEndian16(b[..2]);
    var lo := ReadBigEndian16(b[2..4]);
    assert b[..4] == b[..2] + b[2..4];
    hi * 0x1_0000 + lo
  }

  /** The two bytes of `x` in host (little-endian) order. */
  function HostOrder16(x: u16): (b: seq<byte>)
    ensures |b| == 2 && (b[1] as int) * 0x100 + (b[0] as int) == x
  {
    [x % 0x100, x / 0x100]
  }

  /** The four bytes of `x` in host (little-endian) order. */
  function HostOrder32(x: u32): (b: seq<byte>)
    ensures |b| == 4
    ensures (((b[3] as int) * 0x100 + (b[2] as int)) * 0x100 + (b[1] as int)) * 0x100 + (b[0] as int) == x
  {
    HostOrder16(x % 0x1_0000) + HostOrder16(x / 0x1_0000)
  }

  lemma BigEndian16RoundTrip(x: u16, rest: seq<byte>)
    ensures ReadBigEndian16(BigEndian16(x) + rest) == x
  {
    var b := BigEndian16(x) + rest;
    assert b[..2] == BigEndian16(x);
  }

  lemma BigEndian32RoundTrip(x: u32, rest: seq<byte>)
    ensures ReadBigEndian32(BigEndian32(x) + rest) == x
  {
    var b := BigEndian32(x) + rest;
    assert b[..4] == BigEndian32(x);
  }
}
