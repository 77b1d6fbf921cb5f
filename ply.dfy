/**
 * src/ply.cpp: the generic binary PLY reader. `ParseHeader` checks the "ply" and format
 * lines, reads the vertex count and registers one `BinaryAttribute` per property line;
 * `Parse` then reads `vertexSize * vertexCount` bytes of vertex data.
 */
module PlyFile {

  import opened Common
  import opened Stream
  import BinaryAttr

  type PropType = BinaryAttr.PropType
  type BinaryAttribute = BinaryAttr.BinaryAttribute

  /** The size table of src/ply.cpp. */
  function PlyTypeSize(t: PropType): nat
  {
    match t
    case Unknown => 0
    case Char => 1
    case UChar => 1
    case Short => 2
    case UShort => 2
    case Int => 4
    case UInt => 4
    case Float => 4
    case Double => 8
  }

  /** The PLY table and the table of src/core/binaryattribute.cpp agree entry for entry. */
  lemma PlyTableAgrees(t: PropType)
    ensures PlyTypeSize(t) == BinaryAttr.TypeSize(t)
  {
  }

  /** The type names a property line may use; anything else is unsupported. */
  function TypeOfName(name: string): (r: Option<PropType>)
    ensures r.Some? ==> r.value != BinaryAttr.Unknown
  {
    if name == "char" || name == "int8" then Some(BinaryAttr.Char)
    else if name == "uchar" || name == "uint8" then Some(BinaryAttr.UChar)
    else if name == "short" || name == "int16" then Some(BinaryAttr.Short)
    else if name == "ushort" || name == "uint16" then Some(BinaryAttr.UShort)
    else if name == "int" || name == "int32" then Some(BinaryAttr.Int)
    else if name == "uint" || name == "uint32" then Some(BinaryAttr.UInt)
    else if name == "float" || name == "float32" then Some(BinaryAttr.Float)
    else if name == "double" || name == "float64" then Some(BinaryAttr.Double)
    else None
  }

  // ---------------------------------------------------------------------------------
  // `AddProperty` as a function, and its fold over a property list.

  /** The property table and the running vertex size. */
  datatype Layout = Layout(props: map<string, BinaryAttribute>, vertexSize: nat)

  /**
   * `AddProperty`: `emplace` keeps an existing entry for the same name; the new entry's
   * offset is the vertex size so far, cast to `uint32_t`; the vertex size always grows.
   */
  function AddProp(l: Layout, key: string, t: PropType): Layout
  {
    var attr := BinaryAttr.BinaryAttribute(t, PlyTypeSize(t), l.vertexSize % TwoTo32);
    Layout(if key in l.props then l.props else l.props[key := attr], l.vertexSize + PlyTypeSize(t))
  }

  function AddAll(l: Layout, ps: seq<(string, PropType)>): Layout
    decreases |ps|
  {
    if ps == [] then l else AddAll(AddProp(l, ps[0].0, ps[0].1), ps[1..])
  }

  function SumSizes(ps: seq<(string, PropType)>): nat
  {
    if ps == [] then 0 else PlyTypeSize(ps[0].1) + SumSizes(ps[1..])
  }

  /** The vertex size grows by the size of every property, duplicates included. */
  lemma {:induction false} AddAllSize(l: Layout, ps: seq<(string, PropType)>)
    decreases |ps|
    ensures AddAll(l, ps).vertexSize == l.vertexSize + SumSizes(ps)
  {
    if ps != [] {
      AddAllSize(AddProp(l, ps[0].0, ps[0].1), ps[1..]);
    }
  }

  /** An entry already in the table is never replaced. */
  lemma {:induction false} AddAllKeeps(l: Layout, ps: seq<(string, PropType)>, key: string)
    requires key in l.props
    decreases |ps|
    ensures key in AddAll(l, ps).props && AddAll(l, ps).props[key] == l.props[key]
  {
    if ps != [] {
      AddAllKeeps(AddProp(l, ps[0].0, ps[0].1), ps[1..], key);
    }
  }

  /**
   * The first property line with a given name fixes its entry: its type, its size and an
   * offset equal to the sizes of all the lines before it (the prefix sum, cut to 32 bits).
   */
  lemma {:induction false} AddAllFirstOccurrence(l: Layout, ps: seq<(string, PropType)>, i: nat)
    requires i < |ps| && ps[i].0 !in l.props
    requires forall j :: 0 <= j < i ==> ps[j].0 != ps[i].0
    decreases |ps|
    ensures ps[i].0 in AddAll(l, ps).props
    ensures AddAll(l, ps).props[ps[i].0]
      == BinaryAttr.BinaryAttribute(ps[i].1, PlyTypeSize(ps[i].1), (l.vertexSize + SumSizes(ps[..i])) % TwoTo32)
  {
    var l1 := AddProp(l, ps[0].0, ps[0].1);
    if i == 0 {
      AddAllKeeps(l1, ps[1..], ps[0].0);
      assert ps[..0] == [];
    } else {
      assert ps[1..][i - 1] == ps[i];
      AddAllFirstOccurrence(l1, ps[1..], i - 1);
      assert ps[..i] == [ps[0]] + ps[1..][..i - 1];
    }
  }

  /** A name is in the table exactly when it was there before or some property line has it. */
  lemma {:induction false} AddAllKeys(l: Layout, ps: seq<(string, PropType)>, key: string)
    decreases |ps|
    ensures key in AddAll(l, ps).props <==> key in l.props || exists i :: 0 <= i < |ps| && ps[i].0 == key
  {
    if ps != [] {
      AddAllKeys(AddProp(l, ps[0].0, ps[0].1), ps[1..], key);
      if key !in l.props && key != ps[0].0 && key in AddAll(l, ps).props {
        var i :| 0 <= i < |ps[1..]| && ps[1..][i].0 == key;
        assert ps[i + 1].0 == key;
      }
      if exists i :: 0 <= i < |ps| && ps[i].0 == key {
        var i :| 0 <= i < |ps| && ps[i].0 == key;
        if i > 0 {
          assert ps[1..][i - 1].0 == key;
        }
      }
    }
  }

  // ---------------------------------------------------------------------------------
  // The header grammar.

  const LittleEndian: string := "format binary_little_endian 1.0"
  const BigEndian: string := "format binary_big_endian 1.0"

  datatype HeaderError = ReadError | NotPly | NoFormat | BigEndianFormat | BadElement | NotProperty | UnsupportedType

  /** The property lines up to "end_header": the properties added, and the error if any. */
  datatype PropsOutcome = PropsOutcome(props: seq<(string, PropType)>, error: Option<HeaderError>, next: nat)

  /**
   * The property loop. Each line is read into three words with `>>`; when a line has fewer
   * than three words, the missing ones keep the value the variable had before.
   */
  function PropertyLines(data: seq<byte>, pos: nat, t1: string, t2: string, t3: string): (r: PropsOutcome)
    requires pos <= |data|
    decreases |data| - pos
  {
    match NextPlyLine(data, pos)
    case None => PropsOutcome([], Some(ReadError), |data|)
    case Some(l) =>
      match LineStep(l.text, t1, t2, t3)
      case EndOfHeader => PropsOutcome([], None, l.next)
      case Rejected(e) => PropsOutcome([], Some(e), l.next)
      case Property(a, b, c, t) => Prepend((c, t), PropertyLines(data, l.next, a, b, c))
  }

  datatype LineResult = EndOfHeader | Rejected(e: HeaderError) | Property(t1: string, t2: string, t3: string, t: PropType)

  /** One line of the property loop, given the three word variables before it. */
  function LineStep(text: string, t1: string, t2: string, t3: string): LineResult
  {
    if text == "end_header" then EndOfHeader
    else
      var ws := Words(text);
      var a, b, c := Extract(ws, 0, t1), Extract(ws, 1, t2), Extract(ws, 2, t3);
      if a != "property" then Rejected(NotProperty)
      else match TypeOfName(b)
        case None => Rejected(UnsupportedType)
        case Some(t) => Property(a, b, c, t)
  }

  function Prepend(p: (string, PropType), o: PropsOutcome): PropsOutcome
  {
    PropsOutcome([p] + o.props, o.error, o.next)
  }

  function PrependAll(ps: seq<(string, PropType)>, o: PropsOutcome): PropsOutcome
  {
    PropsOutcome(ps + o.props, o.error, o.next)
  }

  /** The property loop when no line is left: a read error, with the properties added so far. */
  lemma PropertyLinesNone(data: seq<byte>, pos: nat, t1: string, t2: string, t3: string, added: seq<(string, PropType)>)
    requires pos <= |data| && NextPlyLine(data, pos).None?
    ensures var r := PrependAll(added, PropertyLines(data, pos, t1, t2, t3));
      r.props == added && r.error.Some?
  {
    assert added + [] == added;
  }

  /** The property loop at "end_header" or at a rejected line: it stops with what was added. */
  lemma PropertyLinesStop(data: seq<byte>, pos: nat, t1: string, t2: string, t3: string, added: seq<(string, PropType)>,
                          l: Line)
    requires pos <= |data| && NextPlyLine(data, pos) == Some(l) && !LineStep(l.text, t1, t2, t3).Property?
    ensures var r := PrependAll(added, PropertyLines(data, pos, t1, t2, t3));
      r.props == added && (r.error.None? <==> LineStep(l.text, t1, t2, t3).EndOfHeader?) && r.next == l.next
  {
    assert added + [] == added;
  }

  /** One property line: it is added, and the loop goes on from the next line with the new words. */
  lemma PropertyLineStep(data: seq<byte>, pos: nat, t1: string, t2: string, t3: string, added: seq<(string, PropType)>,
                         l: Line, a: string, b: string, c: string, t: PropType)
    requires pos <= |data| && NextPlyLine(data, pos) == Some(l) && LineStep(l.text, t1, t2, t3) == Property(a, b, c, t)
    ensures PrependAll(added, PropertyLines(data, pos, t1, t2, t3))
      == PrependAll(added + [(c, t)], PropertyLines(data, l.next, a, b, c))
  {
    var rest := PropertyLines(data, l.next, a, b, c).props;
    assert added + ([(c, t)] + rest) == (added + [(c, t)]) + rest;
  }

  datatype HeaderOutcome = HeaderOutcome(error: Option<HeaderError>, count: nat, props: seq<(string, PropType)>, next: nat)

  function Fail(e: HeaderError, pos: nat): HeaderOutcome
  {
    HeaderOutcome(Some(e), 0, [], pos)
  }

  /** The element line: "element", "vertex" and a count `>> size_t` can read. */
  function ElementCount(line: string): Option<nat>
  {
    var ws := Words(line);
    if |ws| >= 3 && ws[0] == "element" && ws[1] == "vertex" then ParseSize(ws[2]) else None
  }

  /** The first three header lines: the error, or the vertex count and where properties start. */
  datatype Start = StartFailed(error: HeaderError) | Started(count: nat, first: nat)

  function HeaderStart(data: seq<byte>, pos: nat): (r: Start)
    requires pos <= |data|
    ensures r.Started? ==> r.first <= |data|
  {
    match NextPlyLine(data, pos)
    case None => StartFailed(ReadError)
    case Some(l1) =>
      if l1.text != "ply" then StartFailed(NotPly)
      else match NextPlyLine(data, l1.next)
        case None => StartFailed(ReadError)
        case Some(l2) =>
          if l2.text != LittleEndian && l2.text != BigEndian then StartFailed(NoFormat)
          else if l2.text != LittleEndian then StartFailed(BigEndianFormat)
          else match NextPlyLine(data, l2.next)
            case None => StartFailed(ReadError)
            case Some(l3) =>
              match ElementCount(l3.text)
              case None => StartFailed(BadElement)
              case Some(n) => Started(n, l3.next)
  }

  /** `ParseHeader` as a function of the file contents and the read position. */
  function HeaderSpec(data: seq<byte>, pos: nat): HeaderOutcome
    requires pos <= |data|
  {
    match HeaderStart(data, pos)
    case StartFailed(e) => Fail(e, pos)
    case Started(n, first) =>
      var p := PropertyLines(data, first, "element", "vertex", "");
      HeaderOutcome(p.error, n, p.props, p.next)
  }

  /** A header whose format line is big-endian is recognised and rejected. */
  lemma BigEndianRejected(data: seq<byte>, pos: nat)
    requires pos <= |data|
    requires NextPlyLine(data, pos).Some? && NextPlyLine(data, pos).value.text == "ply"
    requires var l1 := NextPlyLine(data, pos).value;
      NextPlyLine(data, l1.next).Some? && NextPlyLine(data, l1.next).value.text == BigEndian
    ensures HeaderSpec(data, pos).error == Some(BigEndianFormat)
  {
  }

  /** An accepted header was "ply", the little-endian format line and an element line. */
  lemma AcceptedHeaderShape(data: seq<byte>, pos: nat)
    requires pos <= |data| && HeaderSpec(data, pos).error.None?
    ensures NextPlyLine(data, pos).Some? && NextPlyLine(data, pos).value.text == "ply"
    ensures var l2 := NextPlyLine(data, NextPlyLine(data, pos).value.next);
      l2.Some? && l2.value.text == LittleEndian
      && NextPlyLine(data, l2.value.next).Some?
      && ElementCount(NextPlyLine(data, l2.value.next).value.text) == Some(HeaderSpec(data, pos).count)
  {
  }

  /** A line that is neither "end_header" nor a property line ends the header with an error. */
  lemma NonPropertyLineRejected(data: seq<byte>, pos: nat, t1: string, t2: string, t3: string)
    requires pos <= |data| && NextPlyLine(data, pos).Some?
    requires var text := NextPlyLine(data, pos).value.text;
      text != "end_header" && |Words(text)| >= 1 && Words(text)[0] != "property"
    ensures PropertyLines(data, pos, t1, t2, t3).error == Some(NotProperty)
    ensures PropertyLines(data, pos, t1, t2, t3).props == []
  {
  }

  /** Running out of lines before "end_header" is an error. */
  lemma {:induction false} MissingEndHeaderRejected(data: seq<byte>, pos: nat, t1: string, t2: string, t3: string)
    requires pos <= |data|
    requires forall p :: pos <= p <= |data| && NextPlyLine(data, p).Some? ==> NextPlyLine(data, p).value.text != "end_header"
    decreases |data| - pos
    ensures PropertyLines(data, pos, t1, t2, t3).error.Some?
  {
    match NextPlyLine(data, pos)
    case None =>
    case Some(l) =>
      var ws := Words(l.text);
      var a, b, c := Extract(ws, 0, t1), Extract(ws, 1, t2), Extract(ws, 2, t3);
      if a == "property" && TypeOfName(b).Some? {
        MissingEndHeaderRejected(data, l.next, a, b, c);
      }
  }

  // ---------------------------------------------------------------------------------
  // The `Ply` object.

  class Ply {
    var propertyMap: map<string, BinaryAttribute>
    var vertexCount: nat
    var vertexSize: nat
    var data: seq<byte>

    function CurrentLayout(): Layout
      reads this`propertyMap, this`vertexSize
    {
      Layout(propertyMap, vertexSize)
    }

    /** `Ply()`: no properties, count and size zero. */
    constructor ()
      ensures propertyMap == map[] && vertexCount == 0 && vertexSize == 0 && data == []
    {
      propertyMap := map[];
      vertexCount := 0;
      vertexSize := 0;
      data := [];
    }

    /** `AddProperty`: the layout after one more property. */
    method AddProperty(key: string, t: PropType)
      modifies this`propertyMap, this`vertexSize
      ensures CurrentLayout() == AddProp(old(CurrentLayout()), key, t)
    {
      var propSize := PlyTypeSize(t);
      if key !in propertyMap {
        propertyMap := propertyMap[key := BinaryAttr.BinaryAttribute(t, propSize, vertexSize % TwoTo32)];
      }
      vertexSize := vertexSize + propSize;
    }

    /** `GetProperty`: the registered attribute of that name, if any. */
    function GetProperty(key: string): (r: Option<BinaryAttribute>)
      reads this`propertyMap
      ensures r.Some? <==> key in propertyMap
    {
      if key in propertyMap then Some(propertyMap[key]) else None
    }

    /** The first part of `ParseHeader`: the "ply", format and element lines. */
    method ReadHeaderStart(s: InStream) returns (count: Option<nat>)
      requires s.Valid()
      modifies s`pos
      ensures s.Valid()
      ensures count.Some? <==> HeaderStart(s.data, old(s.pos)).Started?
      ensures count.Some? ==> count.value == HeaderStart(s.data, old(s.pos)).count
                              && s.pos == HeaderStart(s.data, old(s.pos)).first
    {
      var got, token1 := s.GetNextPlyLine();
      if !got || token1 != "ply" {
        return None;
      }
      got, token1 := s.GetNextPlyLine();
      if !got || (token1 != LittleEndian && token1 != BigEndian) || token1 != LittleEndian {
        return None;
      }
      var line;
      got, line := s.GetNextPlyLine();
      if !got {
        return None;
      }
      count := ElementCount(line);
    }

    /**
     * `ParseHeader`: accepted exactly when the header grammar accepts; every property line
     * read before acceptance or rejection has been added to the layout.
     */
    method ParseHeader(s: InStream) returns (ok: bool)
      requires s.Valid()
      modifies this`propertyMap, this`vertexSize, this`vertexCount, s`pos
      ensures s.Valid()
      ensures ok <==> HeaderSpec(s.data, old(s.pos)).error.None?
      ensures ok ==> vertexCount == HeaderSpec(s.data, old(s.pos)).count && s.pos == HeaderSpec(s.data, old(s.pos)).next
      ensures CurrentLayout() == AddAll(old(CurrentLayout()), HeaderSpec(s.data, old(s.pos)).props)
    {
      ghost var start := CurrentLayout();
      ghost var p0 := s.pos;
      var count := ReadHeaderStart(s);
      if count.None? {
        assert CurrentLayout() == AddAll(start, []);
        return false;
      }
      vertexCount := count.value;
      ok := ReadProperties(s);
    }

    /**
     * The property loop of `ParseHeader`: lines are read until "end_header", and each
     * property line is added to the layout before the next line is read.
     */
    method ReadProperties(s: InStream) returns (ok: bool)
      requires s.Valid()
      modifies this`propertyMap, this`vertexSize, s`pos
      ensures s.Valid()
      ensures ok <==> PropertyLines(s.data, old(s.pos), "element", "vertex", "").error.None?
      ensures ok ==> s.pos == PropertyLines(s.data, old(s.pos), "element", "vertex", "").next
      ensures CurrentLayout() == AddAll(old(CurrentLayout()), PropertyLines(s.data, old(s.pos), "element", "vertex", "").props)
    {
      ghost var start := CurrentLayout();
      ghost var whole := PropertyLines(s.data, s.pos, "element", "vertex", "");
      ghost var added: seq<(string, PropType)> := [];
      var t1, t2, t3 := "element", "vertex", "";
      assert whole == PrependAll(added, PropertyLines(s.data, s.pos, t1, t2, t3));
      while true
        invariant s.Valid()
        invariant whole == PrependAll(added, PropertyLines(s.data, s.pos, t1, t2, t3))
        invariant CurrentLayout() == AddAll(start, added)
        decreases |s.data| - s.pos
      {
        ghost var o1, o2, o3, p := t1, t2, t3, s.pos;
        var got, line := s.GetNextPlyLine();
        if !got {
          PropertyLinesNone(s.data, p, o1, o2, o3, added);
          return false;
        }
        ghost var l := NextPlyLine(s.data, p).value;
        if line == "end_header" {
          PropertyLinesStop(s.data, p, o1, o2, o3, added, l);
          return true;
        }
        var ws := Words(line);
        t1, t2, t3 := Extract(ws, 0, t1), Extract(ws, 1, t2), Extract(ws, 2, t3);
        if t1 != "property" {
          PropertyLinesStop(s.data, p, o1, o2, o3, added, l);
          return false;
        }
        var t := TypeOfName(t2);
        if t.None? {
          PropertyLinesStop(s.data, p, o1, o2, o3, added, l);
          return false;
        }
        assert LineStep(line, o1, o2, o3) == Property(t1, t2, t3, t.value);
        PropertyLineStep(s.data, p, o1, o2, o3, added, l, t1, t2, t3, t.value);
        AddProperty(t3, t.value);
        AddAllSnoc(start, added, t3, t.value);
        added := added + [(t3, t.value)];
      }
    }

    /** `AllocData`: a buffer of `vertexSize * numVertices` bytes; `fill` stands for its uninitialised contents. */
    method AllocData(numVertices: nat, fill: nat -> byte)
      modifies this`data
      ensures data == Uninitialised(AllocSize(vertexSize, numVertices), fill)
    {
      data := Uninitialised(AllocSize(vertexSize, numVertices), fill);
    }

    /**
     * `Parse`: the header, then one `read` of `vertexSize * vertexCount` bytes into the new
     * buffer. The read is not checked: on a short file the tail of the buffer keeps its
     * uninitialised contents.
     */
    method Parse(s: InStream, fill: nat -> byte) returns (ok: bool)
      requires s.Valid()
      modifies this`propertyMap, this`vertexSize, this`vertexCount, this`data, s`pos
      ensures s.Valid()
      ensures ok <==> HeaderSpec(s.data, old(s.pos)).error.None?
      ensures CurrentLayout() == AddAll(old(CurrentLayout()), HeaderSpec(s.data, old(s.pos)).props)
      ensures ok ==> vertexCount == HeaderSpec(s.data, old(s.pos)).count
      ensures ok ==> (HeaderSpec(s.data, old(s.pos)).next <= |s.data|
        && Loaded(data, s.data, HeaderSpec(s.data, old(s.pos)).next, AllocSize(vertexSize, vertexCount), fill))
    {
      ok := ParseHeader(s);
      if ok {
        ReadBody(s, fill);
      }
    }

    /** The body read of `Parse`: a new buffer, then one `read` of all its bytes into it. */
    method ReadBody(s: InStream, fill: nat -> byte)
      requires s.Valid()
      modifies this`data, s`pos
      ensures s.Valid() && old(s.pos) <= |s.data|
      ensures Loaded(data, s.data, old(s.pos), AllocSize(vertexSize, vertexCount), fill)
    {
      ghost var next := s.pos;
      var total := AllocSize(vertexSize, vertexCount);
      AllocData(vertexCount, fill);
      var got := s.Read(total);
      ReadIntoBuffer(got, s.data, next, total, fill);
      data := got + data[|got|..];
    }

    /**
     * `ForEachVertex`: the callback is called `vertexCount` times, on consecutive records
     * of `vertexSize` bytes from the start of the buffer.
     */
    method ForEachVertex<R>(cb: seq<byte> -> R) returns (results: seq<R>)
      requires BinaryAttr.RecordStart(vertexSize, vertexCount) <= |data|
      ensures |results| == vertexCount
      ensures forall i :: 0 <= i < vertexCount ==> BinaryAttr.RecordStart(vertexSize, i) + vertexSize <= |data|
      ensures forall i :: 0 <= i < vertexCount ==> results[i] == cb(Record(data, i, vertexSize))
    {
      var d, size, n := data, vertexSize, vertexCount;
      RecordsInside(n, size);
      results := [];
      var ptr := 0;
      var i := 0;
      while i < n
        invariant 0 <= i <= n && |results| == i && ptr == BinaryAttr.RecordStart(size, i)
        invariant forall m :: 0 <= m < i ==> results[m] == cb(Record(d, m, size))
      {
        RecordInside(i, n, size);
        results := results + [cb(d[ptr..ptr + size])];
        ptr := ptr + size;
        i := i + 1;
      }
    }
  }

  /** Record `i` of a buffer of records of `size` bytes. */
  function Record(d: seq<byte>, i: nat, size: nat): seq<byte>
    requires BinaryAttr.RecordStart(size, i) + size <= |d|
  {
    d[BinaryAttr.RecordStart(size, i)..BinaryAttr.RecordStart(size, i) + size]
  }

  /** The `size_t` product `size * count`, which wraps around at 2^64. */
  function AllocSize(size: nat, count: nat): (r: nat)
    ensures r < TwoTo64
  {
    (size * count) % TwoTo64
  }

  /**
   * The buffer after `Parse`: `total` bytes, of which the first `k` are the bytes of
   * `src` after the header (as many as are left, up to `total`) and the rest keep their
   * uninitialised contents.
   */
  ghost predicate Loaded(buf: seq<byte>, src: seq<byte>, from: nat, total: nat, fill: nat -> byte)
    requires from <= |src|
  {
    var k := Min(total, |src| - from);
    |buf| == total && buf[..k] == src[from..from + k]
    && forall i :: k <= i < total ==> buf[i] == fill(i)
  }

  /** A new buffer of `n` bytes: byte `j` holds whatever `fill(j)` says. */
  function Uninitialised(n: nat, fill: nat -> byte): (r: seq<byte>)
    ensures |r| == n && forall j :: 0 <= j < n ==> r[j] == fill(j)
  {
    seq(n, (j: nat) => fill(j))
  }

  /** Copying what one `read` returned over the front of a fresh buffer gives a loaded buffer. */
  lemma ReadIntoBuffer(got: seq<byte>, src: seq<byte>, from: nat, total: nat, fill: nat -> byte)
    requires from <= |src| && got == src[from..from + Min(total, |src| - from)]
    ensures Loaded(got + Uninitialised(total, fill)[|got|..], src, from, total, fill)
  {
    assert |got| <= total;
    var blank := Uninitialised(total, fill);
    var buf := got + blank[|got|..];
    assert buf[..|got|] == got;
    forall i | |got| <= i < total
      ensures buf[i] == fill(i)
    {
      assert buf[i] == blank[|got|..][i - |got|];
    }
  }

  /** Each of the first `n` records ends no later than record `n` starts. */
  lemma RecordsInside(n: nat, size: nat)
    ensures forall i :: 0 <= i < n ==> BinaryAttr.RecordStart(size, i) + size <= BinaryAttr.RecordStart(size, n)
  {
    forall i | 0 <= i < n
      ensures BinaryAttr.RecordStart(size, i) + size <= BinaryAttr.RecordStart(size, n)
    {
      RecordInside(i, n, size);
    }
  }

  /** Record `i` of `n` ends inside the buffer, and the next one starts where it ends. */
  lemma {:induction false} RecordInside(i: nat, n: nat, size: nat)
    requires i < n
    ensures BinaryAttr.RecordStart(size, i) + size <= BinaryAttr.RecordStart(size, n)
    ensures BinaryAttr.RecordStart(size, i + 1) == BinaryAttr.RecordStart(size, i) + size
    decreases n - i
  {
    if i + 1 < n {
      RecordInside(i + 1, n, size);
    }
  }

  /** Adding one more property at the end of a list is one more `AddProp` step. */
  lemma {:induction false} AddAllSnoc(l: Layout, ps: seq<(string, PropType)>, key: string, t: PropType)
    decreases |ps|
    ensures AddAll(l, ps + [(key, t)]) == AddProp(AddAll(l, ps), key, t)
  {
    if ps == [] {
      assert [(key, t)][1..] == [];
    } else {
      assert (ps + [(key, t)])[1..] == ps[1..] + [(key, t)];
      AddAllSnoc(AddProp(l, ps[0].0, ps[0].1), ps[1..], key, t);
    }
  }
}
