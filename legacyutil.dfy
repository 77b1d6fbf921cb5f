/**
 * src/util.cpp: the older copies of the UTF-8 decoder and the AABB test, and the fixed
 * root path. Each is written out as that file has it and shown to agree with the copy
 * in src/core/util.cpp.
 */
module LegacyUtil {

  import opened Common
  import Util

  /** `NextCodePointUTF8` of src/util.cpp, including the same 4-byte branch reading bytes 1, 1, 2. */
  function NextCodePointUTF8(p: seq<byte>): (d: Util.Decoded)
    requires |p| >= 1 && |p| >= Util.BytesRead(p[0])
    ensures 1 <= d.advance <= 4
  {
    var b0, b1, b2 := Util.W(p[0]), Util.W(if |p| > 1 then p[1] else 0), Util.W(if |p| > 2 then p[2] else 0);
    if p[0] & 0x80 == 0 then Util.Decoded(1, b0)
    else if p[0] & 0xE0 == 0xC0 then
      Util.Decoded(2, ((b0 & !0xE0) << 6) | (b1 & !0xC0))
    else if p[0] & 0xF0 == 0xE0 then
      Util.Decoded(3, ((b0 & !0xF0) << 12) | ((b1 & !0xC0) << 6) | (b2 & !0xC0))
    else if p[0] & 0xF8 == 0xF0 then
      Util.Decoded(4, ((b0 & !0xF8) << 18) | ((b1 & !0xC0) << 12) | ((b1 & !0xC0) << 6) | (b2 & !0xC0))
    else Util.Decoded(1, 0)
  }

  /** The two decoders are the same function. */
  lemma DecoderCopiesAgree(p: seq<byte>)
    requires |p| >= 1 && |p| >= Util.BytesRead(p[0])
    ensures NextCodePointUTF8(p) == Util.NextCodePointUTF8(p)
  {
    if p[0] & 0x80 == 0 {
    } else if p[0] & 0xE0 == 0xC0 {
    } else if p[0] & 0xF0 == 0xE0 {
    } else if p[0] & 0xF8 == 0xF0 {
    }
  }

  /** Hence the older copy also inverts the RFC 3629 encoder on every code point up to 0xFFFF. */
  lemma DecodeEncodeBmp(cp: bv32)
    requires cp <= 0xFFFF
    ensures var s := Util.Encode(cp);
      |s| >= Util.BytesRead(s[0]) && NextCodePointUTF8(s) == Util.Decoded(|s|, cp)
  {
    Util.DecodeEncodeBmp(cp);
    DecoderCopiesAgree(Util.Encode(cp));
  }

  /** ... and misreads U+1F600 (F0 9F 98 80) in the same way. */
  lemma FourByteBranchMisdecodes()
    ensures NextCodePointUTF8([0xF0, 0x9F, 0x98, 0x80]) == Util.Decoded(4, 0x1_F7D8)
    ensures Util.Encode(0x1_F600) == [0xF0, 0x9F, 0x98, 0x80]
  {
    Util.FourByteBranchMisdecodes();
  }

  /** An invalid leading byte advances by one and yields code point 0. */
  lemma InvalidLeadDecodesToZero(p: seq<byte>)
    requires |p| >= 1 && (p[0] & 0xC0 == 0x80 || p[0] >= 0xF8)
    ensures NextCodePointUTF8(p) == Util.Decoded(1, 0)
  {
  }

  /** `PointInsideAABB` of src/util.cpp. */
  predicate PointInsideAABB(point: Vec3, aabbMin: Vec3, aabbMax: Vec3)
  {
    (point.x >= aabbMin.x && point.x <= aabbMax.x)
    && (point.y >= aabbMin.y && point.y <= aabbMax.y)
    && (point.z >= aabbMin.z && point.z <= aabbMax.z)
  }

  /** Inclusive on all six faces, exactly as the core copy. */
  lemma AABBCopiesAgree(point: Vec3, aabbMin: Vec3, aabbMax: Vec3)
    ensures PointInsideAABB(point, aabbMin, aabbMax) <==> Util.PointInsideAABB(point, aabbMin, aabbMax)
    ensures PointInsideAABB(aabbMin, aabbMin, aabbMax) <==>
      aabbMin.x <= aabbMax.x && aabbMin.y <= aabbMax.y && aabbMin.z <= aabbMax.z
  {
  }

  /** `GetRootPath` returns the static string "../../": two levels up, ending in a separator. */
  function GetRootPath(): (path: string)
    ensures path == "../../"
  {
    "../../"
  }
}
