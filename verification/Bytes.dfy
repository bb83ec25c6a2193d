/** Bytes and the little-endian fixed-width fields both programs put on the wire. */
module Bytes {
  type Byte = x: int | 0 <= x < 0x100
  type Uint16 = x: int | 0 <= x < 0x1_0000
  type Uint32 = x: int | 0 <= x < 0x1_0000_0000

  const UINT32_SIZE: nat := 0x1_0000_0000
  const SIZE_T: nat := 0x1_0000_0000_0000_0000
  const UUID_SIZE: nat := 16

  function Le16(x: Uint16): (b: seq<Byte>)
    ensures |b| == 2
  {
    [(x as int) % 0x100, (x as int) / 0x100]
  }

  function Le32(x: Uint32): (b: seq<Byte>)
    ensures |b| == 4
  {
    Le16(x % 0x1_0000) + Le16(x / 0x1_0000)
  }

  function FromLe16(b: seq<Byte>): Uint16
    requires |b| == 2
  {
    var low: int, high: int := b[0], b[1];
    low + 0x100 * high
  }

  function FromLe32(b: seq<Byte>): Uint32
    requires |b| == 4
  {
    var low: int, high: int := FromLe16(b[..2]), FromLe16(b[2..]);
    low + 0x1_0000 * high
  }

  lemma Le16RoundTrip(x: Uint16)
    ensures FromLe16(Le16(x)) == x
  {
  }

  lemma Le32RoundTrip(x: Uint32)
    ensures FromLe32(Le32(x)) == x
  {
    assert Le32(x)[..2] == Le16(x % 0x1_0000) && Le32(x)[2..] == Le16(x / 0x1_0000);
  }

  function Zeros(n: nat): (z: seq<Byte>)
    ensures |z| == n && forall i :: 0 <= i < n ==> z[i] == 0
  {
    seq(n, i => 0)
  }

  /** A fixed-size field: the bytes, then zeros up to the size of the field. */
  function Field(b: seq<Byte>, size: nat): (f: seq<Byte>)
    requires |b| <= size
    ensures |f| == size && f[..|b|] == b
  {
    b + Zeros(size - |b|)
  }
}
