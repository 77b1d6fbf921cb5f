/**
 * Binary PLY bodies hold IEEE-754 values in little-endian byte order, which is also the
 * memory order of the machines the readers run on, so reading a record into a struct is a
 * byte copy. A `float` is modelled by its 32 bits and a `double` by its 64 bits.
 */
module Bits {

  import opened Common

  /** The four bytes of a `float`, least significant first. */
  function F32Bytes(f: bv32): (b: seq<byte>)
    ensures |b| == 4
  {
    [(f & 0xFF) as bv8, ((f >> 8) & 0xFF) as bv8, ((f >> 16) & 0xFF) as bv8, (f >> 24) as bv8]
  }

  /** The `float` stored in four bytes, least significant first. */
  function F32Of(b: seq<byte>): bv32
    requires |b| == 4
  {
    (b[0] as bv32) | ((b[1] as bv32) << 8) | ((b[2] as bv32) << 16) | ((b[3] as bv32) << 24)
  }

  /** Storing a `float` and reading it back gives the same bits. */
  lemma F32RoundTrip(f: bv32)
    ensures F32Of(F32Bytes(f)) == f
  {
  }

  /** Four bytes read as a `float` and stored again are the same bytes. */
  lemma F32BytesOf(b: seq<byte>)
    requires |b| == 4
    ensures F32Bytes(F32Of(b)) == b
  {
    BytesOfWord(b[0], b[1], b[2], b[3]);
  }

  lemma BytesOfWord(b0: bv8, b1: bv8, b2: bv8, b3: bv8)
    ensures var f := (b0 as bv32) | ((b1 as bv32) << 8) | ((b2 as bv32) << 16) | ((b3 as bv32) << 24);
      (f & 0xFF) as bv8 == b0 && ((f >> 8) & 0xFF) as bv8 == b1
      && ((f >> 16) & 0xFF) as bv8 == b2 && (f >> 24) as bv8 == b3
  {
  }

  /** The `double` stored in eight bytes, least significant first. */
  function F64Of(b: seq<byte>): bv64
    requires |b| == 8
  {
    (b[0] as bv64) | ((b[1] as bv64) << 8) | ((b[2] as bv64) << 16) | ((b[3] as bv64) << 24)
    | ((b[4] as bv64) << 32) | ((b[5] as bv64) << 40) | ((b[6] as bv64) << 48) | ((b[7] as bv64) << 56)
  }
}
