/**
 * src/core/binaryattribute.h and .cpp: a typed field at a fixed byte offset inside a
 * record. A value of the field's C++ type is modelled by its bytes as they sit in the
 * buffer, so `Read` returns `size` bytes and `Write` stores `size` bytes.
 */
module BinaryAttr {

  import opened Common

  datatype PropType = Unknown | Char | UChar | Short | UShort | Int | UInt | Float | Double

  /** `propertyTypeSizeArr`: the width in bytes of each type; Unknown has width 0. */
  function TypeSize(t: PropType): nat
  {
    match t
    case Unknown => 0
    case Char => 1
    case UChar => 1
    case Short => 2
    case UShort => 2
    case Int => 4
    case UInt => 4
    case Float => 4
    case Double => 8
  }

  /** Only Unknown has width 0; every other width is 1, 2, 4 or 8. */
  lemma TypeSizes(t: PropType)
    ensures TypeSize(t) == 0 <==> t == Unknown
    ensures t != Unknown ==> TypeSize(t) in {1, 2, 4, 8}
    ensures TypeSize(t) == 8 <==> t == Double
  {
  }

  datatype BinaryAttribute = BinaryAttribute(propType: PropType, size: nat, offset: nat)

  /** The default constructor: Unknown, size 0, offset 0. */
  function Default(): (a: BinaryAttribute)
    ensures a.propType == Unknown && a.size == 0 && a.offset == 0 && WellFormed(a)
  {
    BinaryAttribute(Unknown, 0, 0)
  }

  /** `BinaryAttribute(type, offset)`: the size comes from the table, the offset is kept. */
  function Make(t: PropType, offset: nat): (a: BinaryAttribute)
    ensures a.propType == t && a.offset == offset && WellFormed(a)
  {
    BinaryAttribute(t, TypeSize(t), offset)
  }

  /** Both constructors keep the size equal to the table entry of the type. */
  predicate WellFormed(a: BinaryAttribute)
  {
    a.size == TypeSize(a.propType)
  }

  /**
   * `Get<T>`: null for Unknown, otherwise the position `offset` within the record.
   * `width` is `sizeof(T)`, which the source asserts equal to `size`.
   */
  function Get(a: BinaryAttribute, width: nat): (p: Option<nat>)
    requires a.propType != Unknown ==> a.size == width
    ensures p.None? <==> a.propType == Unknown
    ensures p.Some? ==> p.value == a.offset
  {
    if a.propType == Unknown then None else Some(a.offset)
  }

  /** `Read<T>`: zero (`width` zero bytes) for Unknown, otherwise the bytes at the offset. */
  function Read(a: BinaryAttribute, data: seq<byte>, width: nat): (v: seq<byte>)
    requires a.propType != Unknown ==> a.size == width && a.offset + width <= |data|
    ensures |v| == width
  {
    match Get(a, width)
    case None => seq(width, _ => 0)
    case Some(p) => data[p..p + width]
  }

  /**
   * `Write<T>`: false with the buffer unchanged for Unknown; otherwise the value is
   * stored at the offset, byte by byte, and the result is true.
   */
  method Write(a: BinaryAttribute, data: array<byte>, val: seq<byte>) returns (ok: bool)
    requires a.propType != Unknown ==> a.size == |val| && a.offset + |val| <= data.Length
    modifies data
    ensures ok <==> a.propType != Unknown
    ensures data[..] == if ok then Splice(old(data[..]), a.offset, val) else old(data[..])
  {
    var p := Get(a, |val|);
    if p.None? {
      return false;
    }
    StoreBytes(data, p.value, val);
    return true;
  }

  /** After a successful write, reading the same attribute returns the written value. */
  lemma ReadAfterWrite(a: BinaryAttribute, data: seq<byte>, val: seq<byte>)
    requires a.propType != Unknown && a.size == |val| && a.offset + |val| <= |data|
    ensures Read(a, Splice(data, a.offset, val), |val|) == val
  {
    var d := Splice(data, a.offset, val);
    assert d[a.offset..a.offset + |val|] == val;
  }

  /** A write changes only the bytes in [offset, offset + size). */
  lemma WriteFrame(a: BinaryAttribute, data: seq<byte>, val: seq<byte>, j: nat)
    requires a.propType != Unknown && a.size == |val| && a.offset + |val| <= |data|
    requires j < |data| && !(a.offset <= j < a.offset + a.size)
    ensures Splice(data, a.offset, val)[j] == data[j]
  {
    SpliceContents(data, a.offset, val);
  }

  /** Reading an Unknown attribute gives zero whatever the buffer holds. */
  lemma ReadUnknownIsZero(data: seq<byte>, width: nat, k: nat)
    requires k < width
    ensures Read(Default(), data, width)[k] == 0
  {
  }

  /** Where `ForEach`/`ForEachMut` place the attribute of record `i`. */
  function RecordAt(a: BinaryAttribute, stride: nat, i: nat): nat
  {
    RecordStart(stride, i) + a.offset
  }

  /** Where record `i` starts: the pointer begins at 0 and moves on by `stride` per record. */
  function RecordStart(stride: nat, i: nat): nat
  {
    if i == 0 then 0 else RecordStart(stride, i - 1) + stride
  }

  /** Record `i` starts `i * stride` bytes in. */
  lemma {:induction false} RecordStartIsProduct(stride: nat, i: nat)
    ensures RecordStart(stride, i) == i * stride
  {
    if i > 0 {
      RecordStartIsProduct(stride, i - 1);
      assert i * stride == (i - 1) * stride + stride;
    }
  }

  /** Every visited attribute lies inside the buffer. */
  predicate InBounds(a: BinaryAttribute, len: nat, stride: nat, count: nat)
  {
    forall i :: 0 <= i < count ==> RecordAt(a, stride, i) + a.size <= len
  }

  /**
   * `ForEach<T>`: the callback is called `count` times, in increasing `i`, on the attribute
   * of record `i`; `results` holds what each call returned.
   */
  method ForEach<R>(a: BinaryAttribute, data: seq<byte>, stride: nat, count: nat, cb: seq<byte> -> R)
    returns (results: seq<R>)
    requires a.propType != Unknown && InBounds(a, |data|, stride, count)
    ensures |results| == count
    ensures forall i :: 0 <= i < count ==>
      results[i] == cb(data[RecordAt(a, stride, i)..RecordAt(a, stride, i) + a.size])
  {
    results := [];
    var ptr := 0;
    var i := 0;
    while i < count
      invariant 0 <= i <= count && ptr == RecordStart(stride, i) && |results| == i
      invariant forall m :: 0 <= m < i ==>
        results[m] == cb(data[RecordAt(a, stride, m)..RecordAt(a, stride, m) + a.size])
    {
      assert RecordAt(a, stride, i) == ptr + a.offset;
      results := results + [cb(data[ptr + a.offset..ptr + a.offset + a.size])];
      ptr := ptr + stride;
      i := i + 1;
    }
  }

  /** The buffer after the callbacks on the first `n` records, applied in order. */
  function ApplyRecords(d: seq<byte>, a: BinaryAttribute, stride: nat, n: nat, cb: seq<byte> -> seq<byte>): (r: seq<byte>)
    requires InBounds(a, |d|, stride, n)
    requires KeepsSize(cb, a.size)
    ensures |r| == |d|
  {
    if n == 0 then d
    else
      var prev := ApplyRecords(d, a, stride, n - 1, cb);
      var at := RecordAt(a, stride, n - 1);
      Splice(prev, at, cb(prev[at..at + a.size]))
  }

  /**
   * `ForEachMut<T>`: the callback updates the attribute of record `i` in place, for `i`
   * from 0 to `count - 1`.
   */
  method ForEachMut(a: BinaryAttribute, data: array<byte>, stride: nat, count: nat, cb: seq<byte> -> seq<byte>)
    requires a.propType != Unknown && InBounds(a, data.Length, stride, count)
    requires KeepsSize(cb, a.size)
    modifies data
    ensures data[..] == ApplyRecords(old(data[..]), a, stride, count, cb)
  {
    ghost var start := data[..];
    var i := 0;
    while i < count
      invariant 0 <= i <= count
      invariant Applied(start, a, stride, cb, i, data[..])
    {
      ForEachMutStep(start, a, stride, count, cb, i, data[..]);
      UpdateAt(data, RecordAt(a, stride, i), a.size, cb);
      i := i + 1;
    }
  }

  /** The callback on the `size` bytes from `at`: they are replaced by what it returns. */
  method UpdateAt(data: array<byte>, at: nat, size: nat, cb: seq<byte> -> seq<byte>)
    requires at + size <= data.Length
    requires KeepsSize(cb, size)
    modifies data
    ensures data[..] == Splice(old(data[..]), at, cb(old(data[..])[at..at + size]))
  {
    assert data[at..at + size] == data[..][at..at + size];
    var v := cb(data[at..at + size]);
    StoreBytes(data, at, v);
  }

  /** The callback maps every value of the attribute's type to a value of the same size. */
  ghost predicate KeepsSize(cb: seq<byte> -> seq<byte>, n: nat)
  {
    forall x :: |x| == n ==> |cb(x)| == n
  }

  /** One turn of `ForEachMut`: record `i` is in the buffer, and updating it gives the next state. */
  lemma ForEachMutStep(start: seq<byte>, a: BinaryAttribute, stride: nat, count: nat,
                       cb: seq<byte> -> seq<byte>, i: nat, cur: seq<byte>)
    requires InBounds(a, |start|, stride, count) && i < count
    requires KeepsSize(cb, a.size)
    requires Applied(start, a, stride, cb, i, cur)
    ensures RecordAt(a, stride, i) + a.size <= |cur|
    ensures Applied(start, a, stride, cb, i + 1,
                    Splice(cur, RecordAt(a, stride, i), cb(cur[RecordAt(a, stride, i)..RecordAt(a, stride, i) + a.size])))
  {
    ApplyRecordsStep(start, a, stride, i, cb);
  }

  /** `cur` is the buffer after the callbacks on the first `i` records of `start`. */
  ghost predicate Applied(start: seq<byte>, a: BinaryAttribute, stride: nat, cb: seq<byte> -> seq<byte>, i: nat,
                          cur: seq<byte>)
    requires KeepsSize(cb, a.size)
  {
    InBounds(a, |start|, stride, i) && cur == ApplyRecords(start, a, stride, i, cb)
  }

  lemma ApplyRecordsStep(d: seq<byte>, a: BinaryAttribute, stride: nat, n: nat, cb: seq<byte> -> seq<byte>)
    requires InBounds(a, |d|, stride, n + 1)
    requires KeepsSize(cb, a.size)
    ensures InBounds(a, |d|, stride, n)
    ensures var prev := ApplyRecords(d, a, stride, n, cb);
      var at := RecordAt(a, stride, n);
      ApplyRecords(d, a, stride, n + 1, cb) == Splice(prev, at, cb(prev[at..at + a.size]))
  {
  }

  /** Bytes outside the attribute of every visited record are left as they were. */
  lemma {:induction false} ApplyRecordsFrame(d: seq<byte>, a: BinaryAttribute, stride: nat, n: nat,
                                             cb: seq<byte> -> seq<byte>, j: nat)
    requires InBounds(a, |d|, stride, n)
    requires KeepsSize(cb, a.size)
    requires j < |d| && forall i :: 0 <= i < n ==> !(RecordAt(a, stride, i) <= j < RecordAt(a, stride, i) + a.size)
    ensures ApplyRecords(d, a, stride, n, cb)[j] == d[j]
  {
    if n > 0 {
      ApplyRecordsFrame(d, a, stride, n - 1, cb, j);
      var prev := ApplyRecords(d, a, stride, n - 1, cb);
      var at := RecordAt(a, stride, n - 1);
      SpliceContents(prev, at, cb(prev[at..at + a.size]));
    }
  }
}
