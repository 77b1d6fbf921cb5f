// The CPU-side vertex buffers: a `BufferObject` keeps the bytes stored into it in `dataVec`
// together with the element size and count of the last `Store`, and a `VertexArrayObject`
// keeps its attribute buffers beside their locations and one element buffer. The GL
// object names and the GL calls of `Draw` are not modelled.
module VertexBuffers {
  import opened Common

  const ArrayBuffer: int := 0x8892
  const ElementArrayBuffer: int := 0x8893

  /** The element types of the five `Store` overloads. */
  datatype ElementType = Float | FloatVec2 | FloatVec3 | FloatVec4 | Uint32

  /** `elementSize` as `Store` sets it: the number of components of one element. */
  function Components(t: ElementType): (n: int)
    ensures 1 <= n <= 4
  {
    match t
    case Float => 1
    case FloatVec2 => 2
    case FloatVec3 => 3
    case FloatVec4 => 4
    case Uint32 => 1
  }

  /** `sizeof` one element: four bytes per component. */
  function ElementBytes(t: ElementType): (n: nat)
    ensures n == 4 * Components(t)
  {
    match t
    case Float => 4
    case FloatVec2 => 8
    case FloatVec3 => 12
    case FloatVec4 => 16
    case Uint32 => 4
  }

  /** The elements' bytes one after another, as they lie in a `std::vector`. */
  function Flatten<T>(elements: seq<seq<T>>): seq<T>
  {
    if elements == [] then [] else Flatten(elements[..|elements| - 1]) + elements[|elements| - 1]
  }

  /** Elements of `size` bytes each flatten to `size` bytes per element. */
  lemma {:induction false} FlattenLength<T>(elements: seq<seq<T>>, size: nat)
    requires forall k :: 0 <= k < |elements| ==> |elements[k]| == size
    ensures |Flatten(elements)| == size * |elements|
  {
    if elements != [] {
      FlattenLength(elements[..|elements| - 1], size);
      assert size * |elements| == size * (|elements| - 1) + size;
    }
  }

  /** Byte `j` of element `k` lies at offset `size * k + j`. */
  lemma {:induction false} FlattenAt<T>(elements: seq<seq<T>>, size: nat, k: nat, j: nat)
    requires forall i :: 0 <= i < |elements| ==> |elements[i]| == size
    requires k < |elements| && j < size
    ensures size * k + j < |Flatten(elements)| && Flatten(elements)[size * k + j] == elements[k][j]
  {
    var init := elements[..|elements| - 1];
    FlattenLength(init, size);
    if k < |elements| - 1 {
      FlattenAt(init, size, k, j);
    }
  }

  class BufferObject {
    const target: int
    var elementSize: int
    var numElements: int
    var dataVec: seq<byte>

    /** Only the two targets the program uses are accepted (an assertion in the constructor). */
    constructor(targetIn: int)
      requires targetIn == ArrayBuffer || targetIn == ElementArrayBuffer
      ensures target == targetIn && elementSize == 0 && numElements == 0 && dataVec == []
    {
      target := targetIn;
      elementSize := 0;
      numElements := 0;
      dataVec := [];
    }

    /** Appends the first `numBytes` bytes of `data` to `dataVec`; nothing already stored is cleared. */
    method BufferStorage(numBytes: nat, data: seq<byte>)
      requires numBytes <= |data|
      modifies this`dataVec
      ensures dataVec == old(dataVec) + data[..numBytes]
    {
      ghost var start := dataVec;
      for i := 0 to numBytes
        invariant dataVec == start + data[..i]
      {
        assert data[..i + 1] == data[..i] + [data[i]];
        dataVec := dataVec + [data[i]];
      }
    }

    /**
     * The five `Store` overloads: `data` holds the bytes of each element. They are appended,
     * and the element size and count describe this last call only.
     */
    method Store(t: ElementType, data: seq<seq<byte>>)
      requires forall k :: 0 <= k < |data| ==> |data[k]| == ElementBytes(t)
      modifies this`dataVec, this`elementSize, this`numElements
      ensures dataVec == old(dataVec) + Flatten(data)
      ensures |dataVec| == |old(dataVec)| + ElementBytes(t) * |data|
      ensures elementSize == Components(t) && numElements == |data|
      ensures forall k, j :: 0 <= k < |data| && 0 <= j < ElementBytes(t) ==>
        dataVec[|old(dataVec)| + ElementBytes(t) * k + j] == data[k][j]
    {
      var bytes := Flatten(data);
      FlattenLength(data, ElementBytes(t));
      BufferStorage(ElementBytes(t) * |data|, bytes);
      assert bytes[..ElementBytes(t) * |data|] == bytes;
      forall k, j | 0 <= k < |data| && 0 <= j < ElementBytes(t)
        ensures dataVec[|old(dataVec)| + ElementBytes(t) * k + j] == data[k][j]
      {
        FlattenAt(data, ElementBytes(t), k, j);
      }
      elementSize := Components(t);
      numElements := |data|;
    }

    /** `Check`: every stored byte equals the byte at the same offset of `data`. */
    method Check(data: seq<byte>) returns (matches: bool)
      requires |dataVec| <= |data|
      ensures matches <==> dataVec == data[..|dataVec|]
    {
      var i := 0;
      while i < |dataVec|
        invariant 0 <= i <= |dataVec|
        invariant dataVec[..i] == data[..i]
      {
        if data[i] != dataVec[i] {
          return false;
        }
        assert dataVec[..i + 1] == data[..i + 1];
        i := i + 1;
      }
      assert dataVec[..i] == dataVec;
      return true;
    }
  }

  class VertexArrayObject {
    var locVec: seq<int>
    var attribBufferVec: seq<BufferObject>
    /** A null `shared_ptr` until `SetElementBuffer` is called. */
    var elementBuffer: Option<BufferObject>

    /** Locations and attribute buffers are paired by position; attribute buffers are array buffers. */
    ghost predicate Valid()
      reads this
    {
      && |locVec| == |attribBufferVec|
      && (forall k :: 0 <= k < |attribBufferVec| ==> attribBufferVec[k].target == ArrayBuffer)
      && (elementBuffer.Some? ==> elementBuffer.value.target == ElementArrayBuffer)
    }

    constructor()
      ensures Valid()
      ensures locVec == [] && attribBufferVec == [] && elementBuffer == None
    {
      locVec := [];
      attribBufferVec := [];
      elementBuffer := None;
    }

    /** Adds an attribute buffer at location `loc`; only array buffers are accepted. */
    method SetAttribBuffer(loc: int, attribBuffer: BufferObject)
      requires Valid() && attribBuffer.target == ArrayBuffer
      modifies this`locVec, this`attribBufferVec
      ensures Valid()
      ensures locVec == old(locVec) + [loc] && attribBufferVec == old(attribBufferVec) + [attribBuffer]
    {
      locVec := locVec + [loc];
      attribBufferVec := attribBufferVec + [attribBuffer];
    }

    /** Replaces the element buffer; only element-array buffers are accepted. */
    method SetElementBuffer(elementBufferIn: BufferObject)
      requires Valid() && elementBufferIn.target == ElementArrayBuffer
      modifies this`elementBuffer
      ensures Valid()
      ensures elementBuffer == Some(elementBufferIn)
    {
      elementBuffer := Some(elementBufferIn);
    }
  }
}
