/** Types shared by every module of the model. */
module Common {

  /** An 8-bit byte, as `uint8_t` / `unsigned char` in the C++ sources. */
  type byte = bv8

  datatype Option<T> = None | Some(value: T)

  /** Identifies one callback closure supplied by the owner of an object. */
  type Callback = nat

  datatype Vec2 = Vec2(x: real, y: real)

  datatype Vec3 = Vec3(x: real, y: real, z: real)
  {
    function Add(o: Vec3): Vec3 { Vec3(x + o.x, y + o.y, z + o.z) }
  }

  datatype Vec4 = Vec4(x: real, y: real, z: real, w: real)

  /** `glm::vec3(v)` of a `glm::vec4`: the first three components. */
  function Truncate(v: Vec4): Vec3
  {
    Vec3(v.x, v.y, v.z)
  }

  /** A 4x4 matrix given by its columns, as glm stores it. */
  datatype Mat4 = Mat4(c0: Vec4, c1: Vec4, c2: Vec4, c3: Vec4)

  /** `MakeMat4(glm::quat(), t)`: the identity rotation followed by a translation by `t`. */
  function Translation(t: Vec3): Mat4
  {
    Mat4(Vec4(1.0, 0.0, 0.0, 0.0), Vec4(0.0, 1.0, 0.0, 0.0), Vec4(0.0, 0.0, 1.0, 0.0), Vec4(t.x, t.y, t.z, 1.0))
  }

  const Zero3: Vec3 := Vec3(0.0, 0.0, 0.0)

  /** The largest value of a C++ `int` (32 bits, two's complement). */
  const IntMax: int := 0x7FFF_FFFF

  /** 2^32 and 2^64: the moduli of `uint32_t` and of a 64-bit `size_t`. */
  const TwoTo32: int := 0x1_0000_0000
  const TwoTo64: int := 0x1_0000_0000_0000_0000

  /** True when `prefix` occurs at the start of `s`. */
  predicate StartsWith<T(==)>(s: seq<T>, prefix: seq<T>)
  {
    |prefix| <= |s| && s[..|prefix|] == prefix
  }

  /** The byte counting up to `n` from zero, built with byte arithmetic only. */
  function ByteOf(n: nat): byte
    requires n < 256
  {
    if n == 0 then 0 else ByteOf(n - 1) + 1
  }

  /** Adding one to a byte below 255 does not wrap. */
  lemma ByteSucc(x: byte)
    requires x as int < 255
    ensures (x + 1) as int == x as int + 1
  {
  }

  /** Counting up to `n` gives the byte whose value is `n`. */
  lemma {:induction false} ByteOfValue(n: nat)
    requires n < 256
    ensures ByteOf(n) as int == n
  {
    if n != 0 {
      ByteOfValue(n - 1);
      ByteSucc(ByteOf(n - 1));
    }
  }

  /** A value below 256 survives the trip through a byte. */
  lemma ByteIntRoundTrip(n: int)
    requires 0 <= n < 256
    ensures (n as byte) as int == n
  {
    ByteOfValue(n);
    assert (ByteOf(n) as int) as byte == ByteOf(n);
  }

  /** Sequence concatenation is associative. */
  lemma AppendAssoc<T>(a: seq<T>, b: seq<T>, c: seq<T>)
    ensures a + b + c == a + (b + c)
  {
  }

  /** A window inside the left part of a concatenation. */
  lemma SliceLeft<T>(a: seq<T>, b: seq<T>, x: nat, y: nat)
    requires x <= y <= |a|
    ensures (a + b)[x..y] == a[x..y]
  {
  }

  /** A window inside the right part of a concatenation. */
  lemma SliceRight<T>(a: seq<T>, b: seq<T>, x: nat, y: nat)
    requires x <= y <= |b|
    ensures |a| + y <= |a + b| && (a + b)[|a| + x..|a| + y] == b[x..y]
  {
  }

  /** `std::map::insert`: adds `k` mapped to `v` unless `k` is already a key. */
  function MapInsert<K, V>(m: map<K, V>, k: K, v: V): (r: map<K, V>)
    ensures k in r && r[k] == (if k in m then m[k] else v)
    ensures r.Keys == m.Keys + {k}
    ensures forall j :: j in m && j != k ==> r[j] == m[j]
  {
    if k in m then m else m[k := v]
  }

  /** A second insert of the same key changes nothing: the first value stays. */
  lemma MapInsertKeepsFirst<K, V>(m: map<K, V>, k: K, v1: V, v2: V)
    ensures MapInsert(MapInsert(m, k, v1), k, v2) == MapInsert(m, k, v1)
  {
  }

  // ---------------------------------------------------------------------------------
  // Buffers.

  /** The buffer with `v` stored from position `at` on; its length is unchanged. */
  function Splice<T>(d: seq<T>, at: nat, v: seq<T>): (r: seq<T>)
    requires at + |v| <= |d|
    ensures |r| == |d|
  {
    d[..at] + v + d[at + |v|..]
  }

  /** A splice holds `v` from `at` on and the old bytes everywhere else. */
  lemma SpliceContents<T>(d: seq<T>, at: nat, v: seq<T>)
    requires at + |v| <= |d|
    ensures forall j :: 0 <= j < |d| && !(at <= j < at + |v|) ==> Splice(d, at, v)[j] == d[j]
    ensures forall k :: 0 <= k < |v| ==> Splice(d, at, v)[at + k] == v[k]
  {
  }

  /** The bytes before a splice's end are the old bytes before `at` followed by `v`. */
  lemma SplicePrefix<T>(d: seq<T>, at: nat, v: seq<T>)
    requires at + |v| <= |d|
    ensures Splice(d, at, v)[..at + |v|] == d[..at] + v
  {
    assert |d[..at] + v| == at + |v|;
  }

  /** `memcpy` into a buffer: the bytes of `v` are copied into it from position `at` on. */
  method StoreBytes<T>(data: array<T>, at: nat, v: seq<T>)
    requires at + |v| <= data.Length
    modifies data
    ensures data[..] == Splice(old(data[..]), at, v)
  {
    ghost var start := data[..];
    var k := 0;
    while k < |v|
      invariant 0 <= k <= |v| && data.Length == |start|
      invariant forall j :: 0 <= j < data.Length ==> data[j] == Stored(start, at, v, k, j)
    {
      data[at + k] := v[k];
      k := k + 1;
    }
    SpliceStored(start, at, v, data[..]);
  }

  /** Byte `j` of the buffer once the first `k` bytes of `v` are stored from `at` on. */
  function Stored<T>(start: seq<T>, at: nat, v: seq<T>, k: nat, j: nat): T
    requires k <= |v| && j < |start|
  {
    if at <= j < at + k then v[j - at] else start[j]
  }

  lemma SpliceStored<T>(start: seq<T>, at: nat, v: seq<T>, cur: seq<T>)
    requires at + |v| <= |start| == |cur|
    requires forall j :: 0 <= j < |cur| ==> cur[j] == Stored(start, at, v, |v|, j)
    ensures cur == Splice(start, at, v)
  {
    SpliceContents(start, at, v);
  }
}
