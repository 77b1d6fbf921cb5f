/**
 * src/core/util.cpp: the UTF-8 code-point decoder, the AABB containment test, the safe
 * normalisation of a vector and the channel handling of the vec4 sRGB conversions.
 *
 * UTF-8 follows section 3 of RFC 3629. The decoder reads the leading byte and, depending on
 * it, one or two further bytes; the C string it reads is given as a byte sequence long
 * enough for those reads.
 */
module Util {

  import opened Common

  /** What `NextCodePointUTF8` returns (the advance) and writes to `codePointOut`. */
  datatype Decoded = Decoded(advance: nat, codePoint: bv32)

  /** The number of bytes the decoder dereferences for a given leading byte. */
  function BytesRead(lead: byte): nat
  {
    if lead & 0x80 == 0 then 1
    else if lead & 0xE0 == 0xC0 then 2
    else if lead & 0xF0 == 0xE0 then 3
    else if lead & 0xF8 == 0xF0 then 3
    else 1
  }

  /** Widening of a byte read through `const uint8_t*` to the 32-bit arithmetic of the expression. */
  function W(b: byte): bv32 { b as bv32 }

  /**
   * `NextCodePointUTF8` as written. Note the 4-byte branch: it assembles the value from
   * bytes 1, 1 and 2, where RFC 3629 uses bytes 1, 2 and 3 (see `NextCodePointFixed`).
   */
  function NextCodePointUTF8(p: seq<byte>): (d: Decoded)
    requires |p| >= 1 && |p| >= BytesRead(p[0])
    ensures 1 <= d.advance <= 4
    ensures d.codePoint < 0x20_0000
  {
    if p[0] & 0x80 == 0 then Decoded(1, W(p[0]))
    else if p[0] & 0xE0 == 0xC0 then
      Decoded(2, ((W(p[0]) & !0xE0) << 6) | (W(p[1]) & !0xC0))
    else if p[0] & 0xF0 == 0xE0 then
      Decoded(3, ((W(p[0]) & !0xF0) << 12) | ((W(p[1]) & !0xC0) << 6) | (W(p[2]) & !0xC0))
    else if p[0] & 0xF8 == 0xF0 then
      Decoded(4, ((W(p[0]) & !0xF8) << 18) | ((W(p[1]) & !0xC0) << 12)
                 | ((W(p[1]) & !0xC0) << 6) | (W(p[2]) & !0xC0))
    else Decoded(1, 0)
  }

  /** The decoder with the 4-byte branch reading bytes 1, 2 and 3, as RFC 3629 requires. */
  function NextCodePointFixed(p: seq<byte>): (d: Decoded)
    requires |p| >= 1 && |p| >= ExpectedLength(p[0])
    ensures 1 <= d.advance <= 4
    ensures d.codePoint < 0x20_0000
  {
    if p[0] & 0xF8 == 0xF0 then
      Decoded(4, ((W(p[0]) & !0xF8) << 18) | ((W(p[1]) & !0xC0) << 12)
                 | ((W(p[2]) & !0xC0) << 6) | (W(p[3]) & !0xC0))
    else NextCodePointUTF8(p)
  }

  /** The sequence length RFC 3629 assigns to a leading byte (1 for bytes that cannot lead). */
  function ExpectedLength(lead: byte): nat
  {
    if lead & 0x80 == 0 then 1
    else if lead & 0xE0 == 0xC0 then 2
    else if lead & 0xF0 == 0xE0 then 3
    else if lead & 0xF8 == 0xF0 then 4
    else 1
  }

  /** The RFC 3629 encoding of a code point. */
  function Encode(cp: bv32): (s: seq<byte>)
    requires cp <= 0x10_FFFF
    ensures 1 <= |s| <= 4 && |s| == ExpectedLength(s[0])
  {
    if cp < 0x80 then [cp as byte]
    else if cp < 0x800 then [(0xC0 | (cp >> 6)) as byte, (0x80 | (cp & 0x3F)) as byte]
    else if cp < 0x1_0000 then
      [(0xE0 | (cp >> 12)) as byte, (0x80 | ((cp >> 6) & 0x3F)) as byte, (0x80 | (cp & 0x3F)) as byte]
    else
      [(0xF0 | (cp >> 18)) as byte, (0x80 | ((cp >> 12) & 0x3F)) as byte,
       (0x80 | ((cp >> 6) & 0x3F)) as byte, (0x80 | (cp & 0x3F)) as byte]
  }

  // ---------------------------------------------------------------------------------
  // The decoder's branches.

  /** A byte below 0x80 is a code point on its own. */
  lemma AsciiDecodes(p: seq<byte>)
    requires |p| >= 1 && p[0] < 0x80
    ensures NextCodePointUTF8(p) == Decoded(1, p[0] as bv32)
  {
  }

  /** A continuation byte or 0xF8..0xFF in leading position advances by one and yields 0. */
  lemma InvalidLeadDecodesToZero(p: seq<byte>)
    requires |p| >= 1 && (p[0] & 0xC0 == 0x80 || p[0] >= 0xF8)
    ensures NextCodePointUTF8(p) == Decoded(1, 0)
  {
  }

  /** The advance is the RFC 3629 length of the sequence the leading byte starts. */
  lemma AdvanceIsSequenceLength(p: seq<byte>)
    requires |p| >= 1 && |p| >= BytesRead(p[0])
    ensures NextCodePointUTF8(p).advance == ExpectedLength(p[0])
  {
  }

  /** Decoding the encoding of any code point up to 0xFFFF gives it back, with its length. */
  lemma DecodeEncodeBmp(cp: bv32)
    requires cp <= 0xFFFF
    ensures var s := Encode(cp); |s| >= BytesRead(s[0]) && NextCodePointUTF8(s) == Decoded(|s|, cp)
  {
    if cp < 0x80 {
    } else if cp < 0x800 {
      TwoByteDecodes(cp);
    } else {
      ThreeByteDecodes(cp);
    }
  }

  lemma TwoByteDecodes(cp: bv32)
    requires 0x80 <= cp < 0x800
    ensures var s := Encode(cp); |s| == 2 && BytesRead(s[0]) == 2 && NextCodePointUTF8(s) == Decoded(2, cp)
  {
    var b0, b1 := (0xC0 | (cp >> 6)) as byte, (0x80 | (cp & 0x3F)) as byte;
    assert Encode(cp) == [b0, b1];
    TwoByteBits(cp, b0, b1);
    TwoByteBranch(b0, b1);
  }

  lemma ThreeByteDecodes(cp: bv32)
    requires 0x800 <= cp < 0x1_0000
    ensures var s := Encode(cp); |s| == 3 && BytesRead(s[0]) == 3 && NextCodePointUTF8(s) == Decoded(3, cp)
  {
    var b0, b1, b2 := (0xE0 | (cp >> 12)) as byte, (0x80 | ((cp >> 6) & 0x3F)) as byte, (0x80 | (cp & 0x3F)) as byte;
    assert Encode(cp) == [b0, b1, b2];
    ThreeByteBits(cp, b0, b1, b2);
    ThreeByteBranch(b0, b1, b2);
  }

  /** A leading byte 110xxxxx selects the 2-byte branch. */
  lemma TwoByteBranch(b0: byte, b1: byte)
    requires b0 & 0xE0 == 0xC0
    ensures BytesRead(b0) == 2
    ensures NextCodePointUTF8([b0, b1]) == Decoded(2, ((W(b0) & !0xE0) << 6) | (W(b1) & !0xC0))
  {
    assert b0 & 0x80 != 0;
  }

  /** A leading byte 1110xxxx selects the 3-byte branch. */
  lemma ThreeByteBranch(b0: byte, b1: byte, b2: byte)
    requires b0 & 0xF0 == 0xE0
    ensures BytesRead(b0) == 3
    ensures NextCodePointUTF8([b0, b1, b2])
      == Decoded(3, ((W(b0) & !0xF0) << 12) | ((W(b1) & !0xC0) << 6) | (W(b2) & !0xC0))
  {
    assert b0 & 0x80 != 0 && b0 & 0xE0 != 0xC0;
  }

  /** A leading byte 11110xxx selects the 4-byte branch of the corrected decoder. */
  lemma FourByteBranch(b0: byte, b1: byte, b2: byte, b3: byte)
    requires b0 & 0xF8 == 0xF0
    ensures NextCodePointFixed([b0, b1, b2, b3]) == Decoded(4, ((W(b0) & !0xF8) << 18)
        | ((W(b1) & !0xC0) << 12) | ((W(b2) & !0xC0) << 6) | (W(b3) & !0xC0))
  {
  }

  lemma TwoByteBits(cp: bv32, b0: byte, b1: byte)
    requires 0x80 <= cp < 0x800
    requires b0 == (0xC0 | (cp >> 6)) as byte && b1 == (0x80 | (cp & 0x3F)) as byte
    ensures b0 & 0xE0 == 0xC0 && ((W(b0) & !0xE0) << 6) | (W(b1) & !0xC0) == cp
  {
  }

  lemma ThreeByteBits(cp: bv32, b0: byte, b1: byte, b2: byte)
    requires 0x800 <= cp < 0x1_0000
    requires b0 == (0xE0 | (cp >> 12)) as byte && b1 == (0x80 | ((cp >> 6) & 0x3F)) as byte
    requires b2 == (0x80 | (cp & 0x3F)) as byte
    ensures b0 & 0xF0 == 0xE0
    ensures ((W(b0) & !0xF0) << 12) | ((W(b1) & !0xC0) << 6) | (W(b2) & !0xC0) == cp
  {
  }

  lemma FourByteBits(cp: bv32, b0: byte, b1: byte, b2: byte, b3: byte)
    requires 0x1_0000 <= cp <= 0x10_FFFF
    requires b0 == (0xF0 | (cp >> 18)) as byte && b1 == (0x80 | ((cp >> 12) & 0x3F)) as byte
    requires b2 == (0x80 | ((cp >> 6) & 0x3F)) as byte && b3 == (0x80 | (cp & 0x3F)) as byte
    ensures b0 & 0xF8 == 0xF0
    ensures ((W(b0) & !0xF8) << 18) | ((W(b1) & !0xC0) << 12) | ((W(b2) & !0xC0) << 6) | (W(b3) & !0xC0) == cp
  {
  }

  /** U+1F600 is F0 9F 98 80, but the decoder as written reports 0x1F7D8 for it. */
  lemma FourByteBranchMisdecodes()
    ensures Encode(0x1_F600) == [0xF0, 0x9F, 0x98, 0x80]
    ensures NextCodePointUTF8([0xF0, 0x9F, 0x98, 0x80]) == Decoded(4, 0x1_F7D8)
  {
  }

  /** With bytes 1, 2 and 3 the decoder inverts the encoder on every code point. */
  lemma DecodeEncodeFixed(cp: bv32)
    requires cp <= 0x10_FFFF
    ensures var s := Encode(cp); NextCodePointFixed(s) == Decoded(|s|, cp)
  {
    if cp < 0x1_0000 {
      DecodeEncodeBmp(cp);
    } else {
      var b0, b1 := (0xF0 | (cp >> 18)) as byte, (0x80 | ((cp >> 12) & 0x3F)) as byte;
      var b2, b3 := (0x80 | ((cp >> 6) & 0x3F)) as byte, (0x80 | (cp & 0x3F)) as byte;
      assert Encode(cp) == [b0, b1, b2, b3];
      FourByteBits(cp, b0, b1, b2, b3);
      FourByteBranch(b0, b1, b2, b3);
    }
  }

  /** The fixed decoder agrees with the original on every sequence that does not start a 4-byte one. */
  lemma FixedAgreesBelowFourBytes(p: seq<byte>)
    requires |p| >= 1 && |p| >= ExpectedLength(p[0]) && p[0] & 0xF8 != 0xF0
    ensures NextCodePointFixed(p) == NextCodePointUTF8(p)
  {
  }

  // ---------------------------------------------------------------------------------
  // Geometry helpers.

  /** `PointInsideAABB`: inclusive on all six faces. */
  predicate PointInsideAABB(point: Vec3, aabbMin: Vec3, aabbMax: Vec3)
  {
    (point.x >= aabbMin.x && point.x <= aabbMax.x)
    && (point.y >= aabbMin.y && point.y <= aabbMax.y)
    && (point.z >= aabbMin.z && point.z <= aabbMax.z)
  }

  function Clamp(v: real, lo: real, hi: real): real
  {
    if v < lo then lo else if v > hi then hi else v
  }

  function ClampVec(p: Vec3, lo: Vec3, hi: Vec3): Vec3
  {
    Vec3(Clamp(p.x, lo.x, hi.x), Clamp(p.y, lo.y, hi.y), Clamp(p.z, lo.z, hi.z))
  }

  /** For a non-empty box, a point is inside exactly when clamping it to the box leaves it fixed. */
  lemma InsideIffClampFixes(point: Vec3, aabbMin: Vec3, aabbMax: Vec3)
    requires aabbMin.x <= aabbMax.x && aabbMin.y <= aabbMax.y && aabbMin.z <= aabbMax.z
    ensures PointInsideAABB(point, aabbMin, aabbMax) <==> ClampVec(point, aabbMin, aabbMax) == point
  {
  }

  /** The corners are inside (faces are inclusive), and a box inside another keeps its points inside. */
  lemma AABBCornersAndNesting(point: Vec3, lo: Vec3, hi: Vec3, lo2: Vec3, hi2: Vec3)
    requires lo.x <= hi.x && lo.y <= hi.y && lo.z <= hi.z
    ensures PointInsideAABB(lo, lo, hi) && PointInsideAABB(hi, lo, hi)
    ensures PointInsideAABB(point, lo, hi) && PointInsideAABB(lo, lo2, hi2) && PointInsideAABB(hi, lo2, hi2)
            ==> PointInsideAABB(point, lo2, hi2)
  {
  }

  function Dot(a: Vec3, b: Vec3): real { a.x * b.x + a.y * b.y + a.z * b.z }

  function Scaled(k: real, v: Vec3): Vec3 { Vec3(k * v.x, k * v.y, k * v.z) }

  /**
   * `SafeNormalize`: `v / length(v)` when the length is positive, `ifZero` otherwise. The
   * square root is foreign: `len` is `glm::length(v)`, a non-negative number whose square
   * is v·v and which is zero only for the zero vector.
   */
  function SafeNormalize(v: Vec3, ifZero: Vec3, len: real): Vec3
    requires IsLength(v, len)
  {
    if len > 0.0 then Vec3(v.x / len, v.y / len, v.z / len) else ifZero
  }

  predicate IsLength(v: Vec3, len: real)
  {
    len >= 0.0 && len * len == Dot(v, v) && (len == 0.0 <==> v == Zero3)
  }

  /** The result is `ifZero` for the zero vector and otherwise a unit vector along `v`. */
  lemma SafeNormalizeUnit(v: Vec3, ifZero: Vec3, len: real)
    requires IsLength(v, len)
    ensures var r := SafeNormalize(v, ifZero, len);
      (v == Zero3 ==> r == ifZero)
      && (v != Zero3 ==> len > 0.0 && Dot(r, r) == 1.0 && r == Scaled(1.0 / len, v))
  {
    if v != Zero3 {
      var k := 1.0 / len;
      var r := SafeNormalize(v, ifZero, len);
      assert r == Scaled(k, v);
      ScaledDot(k, v);
      assert k * k * (len * len) == 1.0;
    }
  }

  lemma ScaledDot(k: real, v: Vec3)
    ensures Dot(Scaled(k, v), Scaled(k, v)) == k * k * Dot(v, v)
  {
    ScaleSquare(k, v.x);
    ScaleSquare(k, v.y);
    ScaleSquare(k, v.z);
  }

  lemma ScaleSquare(k: real, a: real)
    ensures (k * a) * (k * a) == k * k * (a * a)
  {
  }

  // ---------------------------------------------------------------------------------
  // sRGB conversion of a colour: R, G and B through the scalar curve, alpha copied.

  /**
   * The scalar curves. Below the knee they are the linear segments; above it they use
   * `glm::pow`, which is foreign and given as `pow`.
   */
  function LinearToSRGB(linear: real, pow: (real, real) -> real): real
  {
    if linear <= 0.0031308 then 12.92 * linear else 1.055 * pow(linear, 1.0 / 2.4) - 0.055
  }

  function SRGBToLinear(srgb: real, pow: (real, real) -> real): real
  {
    if srgb <= 0.04045 then srgb / 12.92 else pow((srgb + 0.055) / 1.055, 2.4)
  }

  /** On the linear segment the two curves are inverse to each other. */
  lemma LinearSegmentRoundTrip(x: real, pow: (real, real) -> real)
    requires x <= 0.0031308
    ensures SRGBToLinear(LinearToSRGB(x, pow), pow) == x
  {
    assert 12.92 * x <= 0.04045;
  }

  /**
   * The vec4 overloads: the loop converts components 0, 1 and 2 with the scalar curve and
   * alpha is copied. `curve` is either scalar conversion.
   */
  method ConvertColor(color: seq<real>, curve: real -> real) returns (out: seq<real>)
    requires |color| == 4
    ensures |out| == 4
    ensures forall i :: 0 <= i < 3 ==> out[i] == curve(color[i])
    ensures out[3] == color[3]
  {
    out := [0.0, 0.0, 0.0, 0.0];
    var i := 0;
    while i < 3
      invariant 0 <= i <= 3 && |out| == 4
      invariant forall k :: 0 <= k < i ==> out[k] == curve(color[k])
    {
      out := out[i := curve(color[i])];
      i := i + 1;
    }
    out := out[3 := color[3]];
  }

  /** Converting a colour to sRGB and back restores it when every channel is on the linear segment. */
  method ColorRoundTrip(color: seq<real>, pow: (real, real) -> real) returns (back: seq<real>)
    requires |color| == 4 && forall i :: 0 <= i < 3 ==> color[i] <= 0.0031308
    ensures back == color
  {
    var srgb := ConvertColor(color, x => LinearToSRGB(x, pow));
    back := ConvertColor(srgb, x => SRGBToLinear(x, pow));
    forall i | 0 <= i < 3 ensures back[i] == color[i] {
      LinearSegmentRoundTrip(color[i], pow);
    }
  }
}
