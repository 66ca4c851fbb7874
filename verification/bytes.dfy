/** Octets and the fixed-width little-endian integers that `struct.pack` writes
    for the format codes `<H` (unsigned 16-bit) and `<I` (unsigned 32-bit). */
module Bytes {

  /** One octet of a Python `bytes` object. */
  type byte = x: int | 0 <= x < 256

  type bytes = seq<byte>

  const UINT16_LIMIT: nat := 0x1_0000
  const UINT32_LIMIT: nat := 0x1_0000_0000

  /** Reads a little-endian unsigned 16-bit integer. */
  function ReadU16(b: bytes): (x: nat)
    requires |b| == 2
    ensures x < UINT16_LIMIT
  {
    b[0] as nat + 256 * (b[1] as nat)
  }

  /** Writes `x` as a little-endian unsigned 16-bit integer (struct code `<H`). */
  function U16(x: nat): (b: bytes)
    requires x < UINT16_LIMIT
    ensures |b| == 2
    ensures ReadU16(b) == x
  {
    [x % 256, x / 256]
  }

  /** Two bytes are the encoding of the integer they read as. */
  lemma U16OfRead(b: bytes)
    requires |b| == 2
    ensures U16(ReadU16(b)) == b
  {
    var x := ReadU16(b);
    assert x % 256 == b[0] && x / 256 == b[1];
  }

  /** Reads a little-endian unsigned 32-bit integer. */
  function ReadU32(b: bytes): (x: nat)
    requires |b| == 4
    ensures x < UINT32_LIMIT
  {
    ReadU16(b[..2]) + UINT16_LIMIT * ReadU16(b[2..])
  }

  /** Writes `x` as a little-endian unsigned 32-bit integer (struct code `<I`). */
  function U32(x: nat): (b: bytes)
    requires x < UINT32_LIMIT
    ensures |b| == 4
    ensures ReadU32(b) == x
  {
    var lo, hi := U16(x % UINT16_LIMIT), U16(x / UINT16_LIMIT);
    assert (lo + hi)[..2] == lo && (lo + hi)[2..] == hi;
    lo + hi
  }

  /** Four bytes are the encoding of the integer they read as. */
  lemma U32OfRead(b: bytes)
    requires |b| == 4
    ensures U32(ReadU32(b)) == b
  {
    var lo, hi := ReadU16(b[..2]), ReadU16(b[2..]);
    var x := ReadU32(b);
    assert x % UINT16_LIMIT == lo && x / UINT16_LIMIT == hi;
    U16OfRead(b[..2]);
    U16OfRead(b[2..]);
    assert b == b[..2] + b[2..];
  }

  /** The byte string of an ASCII text, one octet per character (a `b"..."` literal). */
  function Ascii(s: string): (b: bytes)
    requires forall i :: 0 <= i < |s| ==> s[i] as int < 128
    ensures |b| == |s|
  {
    seq(|s|, i requires 0 <= i < |s| => s[i] as int)
  }
}
