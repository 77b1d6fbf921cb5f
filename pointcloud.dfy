/**
 * src/pointcloud.cpp: a point cloud read from and written to a binary little-endian PLY
 * file with a fixed header. The reader accepts two layouts, chosen by the first property
 * line: 51-byte records of six doubles and three colour bytes, narrowed to floats, or
 * 27-byte records of six floats and three colour bytes, copied as they are. The writer
 * always emits the float layout.
 */
module PointCloudFile {

  import opened Common
  import opened Stream
  import opened Bits
  import Decimal

  datatype Float3 = Float3(x: bv32, y: bv32, z: bv32)

  datatype Color = Color(r: byte, g: byte, b: byte)

  /** `PointCloud::Point`: a float position, a float normal and an 8-bit colour. */
  datatype Point = Point(position: Float3, normal: Float3, color: Color)

  /** A value-initialised point, as `std::vector::resize` creates it: all bits zero. */
  const ZeroPoint := Point(Float3(0, 0, 0), Float3(0, 0, 0), Color(0, 0, 0))

  // ---------------------------------------------------------------------------------
  // Records.

  /** The 12 bytes of three floats. */
  function Float3Bytes(f: Float3): (b: seq<byte>)
    ensures |b| == 12
  {
    F32Bytes(f.x) + F32Bytes(f.y) + F32Bytes(f.z)
  }

  function Float3Of(b: seq<byte>): Float3
    requires |b| == 12
  {
    Float3(F32Of(b[0..4]), F32Of(b[4..8]), F32Of(b[8..12]))
  }

  /** The 27 bytes of a point in the float layout (`POINT_SIZE`), in field order. */
  function PointBytes(p: Point): (b: seq<byte>)
    ensures |b| == 27
  {
    Float3Bytes(p.position) + Float3Bytes(p.normal) + [p.color.r, p.color.g, p.color.b]
  }

  /** The point whose first 27 bytes a `read` into `pointVec[i]` overwrote with `b`. */
  function PointOf(b: seq<byte>): Point
    requires |b| == 27
  {
    Point(Float3Of(b[0..12]), Float3Of(b[12..24]), Color(b[24], b[25], b[26]))
  }

  lemma Float3RoundTrip(f: Float3)
    ensures Float3Of(Float3Bytes(f)) == f
  {
    var b := Float3Bytes(f);
    assert b[0..4] == F32Bytes(f.x) && b[4..8] == F32Bytes(f.y) && b[8..12] == F32Bytes(f.z);
    F32RoundTrip(f.x);
    F32RoundTrip(f.y);
    F32RoundTrip(f.z);
  }

  lemma Float3BytesOf(b: seq<byte>)
    requires |b| == 12
    ensures Float3Bytes(Float3Of(b)) == b
  {
    F32BytesOf(b[0..4]);
    F32BytesOf(b[4..8]);
    F32BytesOf(b[8..12]);
    assert b == b[0..4] + b[4..8] + b[8..12];
  }

  /** A point written and read back is the same point. */
  lemma PointRoundTrip(p: Point)
    ensures PointOf(PointBytes(p)) == p
  {
    var b := PointBytes(p);
    assert b[0..12] == Float3Bytes(p.position) && b[12..24] == Float3Bytes(p.normal);
    Float3RoundTrip(p.position);
    Float3RoundTrip(p.normal);
  }

  /** Any 27 bytes read as a point and written again are the same bytes. */
  lemma PointBytesOf(b: seq<byte>)
    requires |b| == 27
    ensures PointBytes(PointOf(b)) == b
  {
    var pos, nor, col := b[0..12], b[12..24], [b[24], b[25], b[26]];
    Float3BytesOf(pos);
    Float3BytesOf(nor);
    assert PointBytes(PointOf(b)) == Float3Bytes(Float3Of(pos)) + Float3Bytes(Float3Of(nor)) + col;
    assert b == pos + nor + col;
  }

  /**
   * A 51-byte `DoublePoint` record, each double converted to float by `narrow` (the C++
   * `(float)` cast) and the colour bytes copied.
   */
  function NarrowPoint(b: seq<byte>, narrow: bv64 -> bv32): Point
    requires |b| == 51
  {
    Point(Float3(narrow(F64Of(b[0..8])), narrow(F64Of(b[8..16])), narrow(F64Of(b[16..24]))),
          Float3(narrow(F64Of(b[24..32])), narrow(F64Of(b[32..40])), narrow(F64Of(b[40..48]))),
          Color(b[48], b[49], b[50]))
  }

  // ---------------------------------------------------------------------------------
  // The header.

  const FormatLines: seq<string> := PlyStart

  /** The first property line of each layout. */
  const FloatX: string := PropertyLine("float", "x")
  const DoubleX: string := PropertyLine("double", "x")

  /** The property lines after "x" and "end_header", with the coordinates stored as `ty`. */
  function PropertiesAfterX(ty: string): seq<string>
  {
    [PropertyLine(ty, "y"), PropertyLine(ty, "z"),
     PropertyLine(ty, "nx"), PropertyLine(ty, "ny"), PropertyLine(ty, "nz"),
     PropertyLine("uchar", "red"), PropertyLine("uchar", "green"), PropertyLine("uchar", "blue"), "end_header"]
  }

  const FloatProperties: seq<string> := PropertiesAfterX("float")

  const DoubleProperties: seq<string> := PropertiesAfterX("double")

  /** Why an import stopped; the source logs a different message for each. */
  datatype Status =
    | Imported
    | NotOpened             // the file could not be opened
    | InvalidHeader         // "ply" or the format line missing or different
    | MissingVertexCount    // no line left for the element line
    | BadVertexCount        // the element line is not "element vertex <int>"
    | MissingFirstProperty  // no line left for the first property
    | BadFirstProperty      // the first property is neither double nor float x
    | UnexpectedProperties  // a later header line differs from the layout's
    | ShortRead(index: nat) // record `index` is incomplete
    | LengthError           // a negative count makes `resize` throw

  datatype Layout = Floats | Doubles

  datatype Header = HeaderFailed(status: Status) | HeaderOk(count: int, layout: Layout, body: nat)

  /** The header part of `ImportPly`: its error, or the count, the layout and where records start. */
  function PointHeader(data: seq<byte>, pos: nat): (h: Header)
    requires pos <= |data|
    ensures h.HeaderOk? ==> h.body <= |data|
    ensures h.HeaderFailed? ==> h.status != Imported && !h.status.ShortRead? && h.status != LengthError
  {
    match MatchLines(data, pos, FormatLines, true)
    case None => HeaderFailed(InvalidHeader)
    case Some(p1) =>
      match NextPlyLine(data, p1)
      case None => HeaderFailed(MissingVertexCount)
      case Some(l) =>
        match VertexCount(l.text)
        case None => HeaderFailed(BadVertexCount)
        case Some(n) =>
          match NextPlyLine(data, l.next)
          case None => HeaderFailed(MissingFirstProperty)
          case Some(f) =>
            if f.text == DoubleX then
              match MatchLines(data, f.next, DoubleProperties, true)
              case None => HeaderFailed(UnexpectedProperties)
              case Some(b) => HeaderOk(n, Doubles, b)
            else if f.text == FloatX then
              match MatchLines(data, f.next, FloatProperties, true)
              case None => HeaderFailed(UnexpectedProperties)
              case Some(b) => HeaderOk(n, Floats, b)
            else HeaderFailed(BadFirstProperty)
  }

  // ---------------------------------------------------------------------------------
  // The records.

  /** `std::vector::resize(n)`: the first elements are kept, new ones are zero. */
  function Resize(v: seq<Point>, n: nat): (r: seq<Point>)
    ensures |r| == n
    ensures forall i :: 0 <= i < n && i < |v| ==> r[i] == v[i]
    ensures forall i :: |v| <= i < n ==> r[i] == ZeroPoint
  {
    if n <= |v| then v[..n] else v + seq(n - |v|, _ => ZeroPoint)
  }

  /** Float record `i` after the header at `body`. */
  function FloatRecord(data: seq<byte>, body: nat, i: nat): Point
    requires body + 27 * i + 27 <= |data|
  {
    PointOf(data[body + 27 * i..body + 27 * i + 27])
  }

  /**
   * `read` of up to 27 bytes straight into the memory of point `p`: the bytes that arrive
   * replace its first `|got|` bytes, the rest of the point is left as it was.
   */
  function ReadInto(p: Point, got: seq<byte>): Point
    requires |got| <= 27
  {
    PointOf(got + PointBytes(p)[|got|..])
  }

  /** A complete read replaces the whole point. */
  lemma ReadIntoFull(p: Point, got: seq<byte>)
    requires |got| == 27
    ensures ReadInto(p, got) == PointOf(got)
  {
    assert got + PointBytes(p)[27..] == got;
  }

  /**
   * The float records after the header at `body`, read over `vec` (already resized to the
   * count). With `k` complete records in the file, either all are read, or record `k` is
   * incomplete: its first bytes are overwritten by what was left and the read stops.
   */
  function FloatBody(data: seq<byte>, body: nat, vec: seq<Point>): (Status, seq<Point>)
    requires body <= |data|
  {
    var n := |vec|;
    var k := (|data| - body) / 27;
    if k >= n then
      (Imported, seq(n, i requires 0 <= i < n => FloatRecord(data, body, i)))
    else
      (ShortRead(k), seq(n, i requires 0 <= i < n =>
        if i < k then FloatRecord(data, body, i)
        else if i == k then ReadInto(vec[k], data[body + 27 * k..])
        else vec[i]))
  }

  /** The first `i` float records are decoded into `pts`; the rest of `vec` is untouched. */
  ghost predicate FloatsRead(data: seq<byte>, body: nat, vec: seq<Point>, i: nat, pts: seq<Point>)
  {
    body + 27 * i <= |data| && i <= |vec| && |pts| == |vec|
    && (forall j :: 0 <= j < i ==> pts[j] == FloatRecord(data, body, j))
    && (forall j :: i <= j < |vec| ==> pts[j] == vec[j])
  }

  lemma FloatsReadStep(data: seq<byte>, body: nat, vec: seq<Point>, i: nat, pts: seq<Point>, got: seq<byte>)
    requires FloatsRead(data, body, vec, i, pts) && i < |vec|
    requires body + 27 * i + 27 <= |data| && got == data[body + 27 * i..body + 27 * i + 27]
    ensures FloatsRead(data, body, vec, i + 1, pts[i := ReadInto(pts[i], got)])
  {
    ReadIntoFull(pts[i], got);
  }

  lemma FloatBodyComplete(data: seq<byte>, body: nat, vec: seq<Point>, pts: seq<Point>)
    requires FloatsRead(data, body, vec, |vec|, pts)
    ensures FloatBody(data, body, vec) == (Imported, pts)
  {
    var r := FloatBody(data, body, vec).1;
    assert forall j :: 0 <= j < |pts| ==> r[j] == pts[j];
    assert r == pts;
  }

  lemma FloatBodyShort(data: seq<byte>, body: nat, vec: seq<Point>, k: nat, pts: seq<Point>, got: seq<byte>)
    requires FloatsRead(data, body, vec, k, pts) && k < |vec| && |data| < body + 27 * k + 27
    requires got == data[body + 27 * k..]
    ensures FloatBody(data, body, vec) == (ShortRead(k), pts[k := ReadInto(pts[k], got)])
  {
    assert (|data| - body) / 27 == k;
    var r := FloatBody(data, body, vec).1;
    var q := pts[k := ReadInto(pts[k], got)];
    assert forall j :: 0 <= j < |q| ==> r[j] == q[j];
    assert r == q;
  }

  /** Double record `i` after the header at `body`, narrowed. */
  function DoubleRecord(data: seq<byte>, body: nat, i: nat, narrow: bv64 -> bv32): Point
    requires body + 51 * i + 51 <= |data|
  {
    NarrowPoint(data[body + 51 * i..body + 51 * i + 51], narrow)
  }

  /** The double records: like `FloatBody`, but an incomplete record leaves its point as it was. */
  function DoubleBody(data: seq<byte>, body: nat, vec: seq<Point>, narrow: bv64 -> bv32): (Status, seq<Point>)
    requires body <= |data|
  {
    var n := |vec|;
    var k := (|data| - body) / 51;
    if k >= n then
      (Imported, seq(n, i requires 0 <= i < n => DoubleRecord(data, body, i, narrow)))
    else
      (ShortRead(k), seq(n, i requires 0 <= i < n =>
        if i < k then DoubleRecord(data, body, i, narrow) else vec[i]))
  }

  /** The first `i` double records are narrowed into `pts`; the rest of `vec` is untouched. */
  ghost predicate DoublesRead(data: seq<byte>, body: nat, vec: seq<Point>, narrow: bv64 -> bv32, i: nat, pts: seq<Point>)
  {
    body + 51 * i <= |data| && i <= |vec| && |pts| == |vec|
    && (forall j :: 0 <= j < i ==> pts[j] == DoubleRecord(data, body, j, narrow))
    && (forall j :: i <= j < |vec| ==> pts[j] == vec[j])
  }

  lemma DoublesReadStep(data: seq<byte>, body: nat, vec: seq<Point>, narrow: bv64 -> bv32, i: nat, pts: seq<Point>)
    requires DoublesRead(data, body, vec, narrow, i, pts) && i < |vec| && body + 51 * i + 51 <= |data|
    ensures DoublesRead(data, body, vec, narrow, i + 1,
                        pts[i := NarrowPoint(data[body + 51 * i..body + 51 * i + 51], narrow)])
  {
  }

  lemma DoubleBodyComplete(data: seq<byte>, body: nat, vec: seq<Point>, narrow: bv64 -> bv32, pts: seq<Point>)
    requires DoublesRead(data, body, vec, narrow, |vec|, pts)
    ensures DoubleBody(data, body, vec, narrow) == (Imported, pts)
  {
    var r := DoubleBody(data, body, vec, narrow).1;
    assert forall j :: 0 <= j < |pts| ==> r[j] == pts[j];
    assert r == pts;
  }

  lemma DoubleBodyShort(data: seq<byte>, body: nat, vec: seq<Point>, narrow: bv64 -> bv32, k: nat, pts: seq<Point>)
    requires DoublesRead(data, body, vec, narrow, k, pts) && k < |vec| && |data| < body + 51 * k + 51
    ensures DoubleBody(data, body, vec, narrow) == (ShortRead(k), pts)
  {
    assert (|data| - body) / 51 == k;
    var r := DoubleBody(data, body, vec, narrow).1;
    assert forall j :: 0 <= j < |pts| ==> r[j] == pts[j];
    assert r == pts;
  }

  /** `ImportPly` as a function of the file, the read position and the old `pointVec`. */
  function ImportSpec(data: seq<byte>, pos: nat, old_points: seq<Point>, narrow: bv64 -> bv32): (Status, seq<Point>)
    requires pos <= |data|
  {
    match PointHeader(data, pos)
    case HeaderFailed(st) => (st, old_points)
    case HeaderOk(n, layout, body) =>
      if n < 0 then (LengthError, old_points)
      else if layout == Floats then FloatBody(data, body, Resize(old_points, n))
      else DoubleBody(data, body, Resize(old_points, n), narrow)
  }

  // ---------------------------------------------------------------------------------
  // The file `ExportPly` writes.

  /** The header `ExportPly` writes: the float layout, with the count of points. */
  function HeaderLines(n: nat): seq<string>
  {
    FormatLines + ([ElementLine(n)] + ([FloatX] + FloatProperties))
  }

  /** The record bytes of the points, 27 per point, in vector order. */
  function RecordBytes(points: seq<Point>): (b: seq<byte>)
    ensures |b| == 27 * |points|
    decreases |points|
  {
    if points == [] then [] else RecordBytes(points[..|points| - 1]) + PointBytes(points[|points| - 1])
  }

  /** Record `i` of the written bytes is exactly point `i`'s bytes. */
  lemma {:induction false} RecordBytesAt(points: seq<Point>, i: nat)
    requires i < |points|
    ensures RecordBytes(points)[27 * i..27 * i + 27] == PointBytes(points[i])
    decreases |points|
  {
    var n := |points| - 1;
    var init := points[..n];
    var a, b := RecordBytes(init), PointBytes(points[n]);
    assert RecordBytes(points) == a + b;
    if i < n {
      RecordBytesAt(init, i);
      assert init[i] == points[i];
      SliceLeft(a, b, 27 * i, 27 * i + 27);
      assert (a + b)[27 * i..27 * i + 27] == PointBytes(points[i]);
    } else {
      assert i == n && |a| == 27 * i && |b| == 27;
      SliceRight(a, b, 0, 27);
      assert b[0..27] == b;
    }
  }

  /** Writing one more point appends its bytes. */
  lemma RecordBytesStep(points: seq<Point>, i: nat)
    requires i < |points|
    ensures RecordBytes(points[..i + 1]) == RecordBytes(points[..i]) + PointBytes(points[i])
  {
    assert points[..i + 1][..i] == points[..i];
  }

  /** The header lines as bytes, each ended by '\n'. */
  function HeaderBytes(n: nat): seq<byte>
  {
    HeaderWritable(n);
    LinesBytes(HeaderLines(n))
  }

  /** The whole file `ExportPly` writes. */
  function ExportBytes(points: seq<Point>): seq<byte>
  {
    HeaderBytes(|points|) + RecordBytes(points)
  }

  /** Every header line is writable, and none of them is a comment. */
  lemma HeaderWritable(n: nat)
    ensures AllWritable(HeaderLines(n)) && NoComments(HeaderLines(n))
  {
    ElementLineWritable(n);
    FixedLinesWritable();
    var tail := [FloatX] + FloatProperties;
    assert ([ElementLine(n)] + tail)[1..] == tail;
    AllWritableAppend(FormatLines, [ElementLine(n)] + tail);
  }

  /** The header `ExportPly` writes is read back as the float layout with the count. */
  lemma ExportedHeader(n: nat, rest: seq<byte>)
    requires n <= IntMax
    ensures PointHeader(HeaderBytes(n) + rest, 0) == HeaderOk(n, Floats, |HeaderBytes(n)|)
  {
    HeaderMatches(n, rest);
    var _, _, _ := MatchLinesParts(HeaderBytes(n) + rest, 0, FormatLines, ElementLine(n), FloatX,
                                   FloatProperties, true, |HeaderBytes(n)|);
    ElementLineCount(n);
  }

  /** The header lines match what `ExportPly` wrote, up to the end of the header. */
  lemma HeaderMatches(n: nat, rest: seq<byte>)
    ensures MatchLines(HeaderBytes(n) + rest, 0, HeaderLines(n), true) == Some(|HeaderBytes(n)|)
  {
    var header := HeaderBytes(n);
    HeaderWritable(n);
    SliceLeft(header, rest, 0, |header|);
    assert header[0..|header|] == header;
    MatchWritten(header + rest, 0, HeaderLines(n), true);
  }

  /** Record `j` of a body placed after any header decodes to the point whose bytes it holds. */
  lemma RecordAfterHeader(header: seq<byte>, rec: seq<byte>, j: nat, p: Point)
    requires 27 * j + 27 <= |rec| && rec[27 * j..27 * j + 27] == PointBytes(p)
    ensures FloatRecord(header + rec, |header|, j) == p
  {
    SliceRight(header, rec, 27 * j, 27 * j + 27);
    FloatRecordOf(header + rec, |header|, j, p);
  }

  /** A record holding a point's bytes decodes to that point. */
  lemma FloatRecordOf(data: seq<byte>, body: nat, j: nat, p: Point)
    requires body + 27 * j + 27 <= |data| && data[body + 27 * j..body + 27 * j + 27] == PointBytes(p)
    ensures FloatRecord(data, body, j) == p
  {
    PointRoundTrip(p);
  }

  /** The records `ExportPly` writes after any header are read back as the points. */
  lemma ExportedRecords(header: seq<byte>, points: seq<Point>, old_points: seq<Point>)
    ensures FloatBody(header + RecordBytes(points), |header|, Resize(old_points, |points|)) == (Imported, points)
  {
    var data := header + RecordBytes(points);
    forall j | 0 <= j < |points|
      ensures points[j] == FloatRecord(data, |header|, j)
    {
      RecordBytesAt(points, j);
      RecordAfterHeader(header, RecordBytes(points), j, points[j]);
    }
    FloatBodyComplete(data, |header|, Resize(old_points, |points|), points);
  }

  /** Importing what `ExportPly` wrote gives back the points, whatever the cloud held before. */
  lemma ExportImportRoundTrip(points: seq<Point>, old_points: seq<Point>, narrow: bv64 -> bv32)
    requires |points| <= IntMax
    ensures ImportSpec(ExportBytes(points), 0, old_points, narrow) == (Imported, points)
  {
    ExportedHeader(|points|, RecordBytes(points));
    ExportedRecords(HeaderBytes(|points|), points, old_points);
  }

  lemma FixedLinesWritable()
    ensures AllWritable(FormatLines) && NoComments(FormatLines)
    ensures AllWritable([FloatX] + FloatProperties) && NoComments([FloatX] + FloatProperties)
  {
    PlyStartWritable();
    PropertyLinesPlain();
  }

  /** The property lines of the float layout, built up from the last line. */
  lemma PropertyLinesPlain()
    ensures AllWritable([FloatX] + FloatProperties) && NoComments([FloatX] + FloatProperties)
  {
    var lines := [FloatX] + FloatProperties;
    var k := |lines|;
    while k > 0
      invariant 0 <= k <= |lines|
      invariant AllWritable(lines[k..]) && NoComments(lines[k..])
    {
      k := k - 1;
      FloatLineWritable(lines, k);
      WritableSuffix(lines, k);
    }
  }

  /** Each property line of the float layout is writable and starts with 'p' or 'e'. */
  lemma FloatLineWritable(lines: seq<string>, k: nat)
    requires lines == [FloatX] + FloatProperties && k < |lines|
    ensures Writable(lines[k]) && |lines[k]| > 0 && lines[k][0] != 'c'
  {
    WordsWritable();
    if k == 0 { PropertyLineWritable("float", "x"); }
    else if k == 1 { PropertyLineWritable("float", "y"); }
    else if k == 2 { PropertyLineWritable("float", "z"); }
    else if k == 3 { PropertyLineWritable("float", "nx"); }
    else if k == 4 { PropertyLineWritable("float", "ny"); }
    else if k == 5 { PropertyLineWritable("float", "nz"); }
    else if k == 6 { PropertyLineWritable("uchar", "red"); }
    else if k == 7 { PropertyLineWritable("uchar", "green"); }
    else if k == 8 { PropertyLineWritable("uchar", "blue"); }
    else { EndHeaderWritable(); }
  }

  /** The words of the float layout's property lines are writable. */
  lemma WordsWritable()
    ensures Writable("float") && Writable("uchar")
    ensures Writable("x") && Writable("y") && Writable("z")
    ensures Writable("nx") && Writable("ny") && Writable("nz")
    ensures Writable("red") && Writable("green") && Writable("blue")
  {
  }

  // ---------------------------------------------------------------------------------
  // The point cloud.

  class PointCloud {
    var pointVec: seq<Point>

    constructor ()
      ensures pointVec == []
    {
      pointVec := [];
    }

    /**
     * `ImportPly`: the header, then exactly `numPoints` records of the chosen layout.
     * The file is the stream `s`, and `isOpen` says whether it opened; `narrow` is the double-to-float conversion.
     */
    method ImportPly(s: InStream, isOpen: bool, narrow: bv64 -> bv32) returns (status: Status)
      requires s.Valid()
      modifies this`pointVec, s`pos
      ensures s.Valid()
      ensures !isOpen ==> status == NotOpened && pointVec == old(pointVec) && s.pos == old(s.pos)
      ensures isOpen ==> (status, pointVec) == ImportSpec(s.data, old(s.pos), old(pointVec), narrow)
    {
      if !isOpen {
        return NotOpened;
      }
      var ok := s.CheckLines(FormatLines, true);
      if !ok {
        return InvalidHeader;
      }
      var got, line := s.GetNextPlyLine();
      if !got {
        return MissingVertexCount;
      }
      var count := VertexCount(line);
      if count.None? {
        return BadVertexCount;
      }
      got, line := s.GetNextPlyLine();
      if !got {
        return MissingFirstProperty;
      }
      var useDoubles := false;
      if line == DoubleX {
        useDoubles := true;
        ok := s.CheckLines(DoubleProperties, true);
      } else if line == FloatX {
        ok := s.CheckLines(FloatProperties, true);
      } else {
        return BadFirstProperty;
      }
      if !ok {
        return UnexpectedProperties;
      }
      var numPoints := count.value;
      if numPoints < 0 {
        return LengthError;
      }
      pointVec := Resize(pointVec, numPoints);
      if useDoubles {
        status := ReadDoubleRecords(s, numPoints, narrow);
      } else {
        status := ReadFloatRecords(s, numPoints);
      }
    }

    /** The float branch: each record is read straight into `pointVec[i]`. */
    method ReadFloatRecords(s: InStream, numPoints: nat) returns (status: Status)
      requires s.Valid() && |pointVec| == numPoints
      modifies this`pointVec, s`pos
      ensures s.Valid()
      ensures (status, pointVec) == FloatBody(s.data, old(s.pos), old(pointVec))
    {
      ghost var body := s.pos;
      ghost var vec := pointVec;
      var i := 0;
      while i < numPoints
        invariant s.Valid() && s.pos == body + 27 * i
        invariant FloatsRead(s.data, body, vec, i, pointVec)
      {
        var got := s.Read(27);
        if |got| != 27 {
          assert got == s.data[body + 27 * i..];
          FloatBodyShort(s.data, body, vec, i, pointVec, got);
        } else {
          FloatsReadStep(s.data, body, vec, i, pointVec, got);
        }
        pointVec := pointVec[i := ReadInto(pointVec[i], got)];
        if |got| != 27 {
          return ShortRead(i);
        }
        i := i + 1;
      }
      FloatBodyComplete(s.data, body, vec, pointVec);
      return Imported;
    }

    /** The double branch: each record is read into a local `DoublePoint` and narrowed. */
    method ReadDoubleRecords(s: InStream, numPoints: nat, narrow: bv64 -> bv32) returns (status: Status)
      requires s.Valid() && |pointVec| == numPoints
      modifies this`pointVec, s`pos
      ensures s.Valid()
      ensures (status, pointVec) == DoubleBody(s.data, old(s.pos), old(pointVec), narrow)
    {
      ghost var body := s.pos;
      ghost var vec := pointVec;
      var i := 0;
      while i < numPoints
        invariant s.Valid() && s.pos == body + 51 * i
        invariant DoublesRead(s.data, body, vec, narrow, i, pointVec)
      {
        var dp := s.Read(51);
        if |dp| != 51 {
          DoubleBodyShort(s.data, body, vec, narrow, i, pointVec);
          return ShortRead(i);
        }
        DoublesReadStep(s.data, body, vec, narrow, i, pointVec);
        pointVec := pointVec[i := NarrowPoint(dp, narrow)];
        i := i + 1;
      }
      DoubleBodyComplete(s.data, body, vec, narrow, pointVec);
      return Imported;
    }

    /**
     * `ExportPly`: the float-layout header with the point count, then 27 bytes per point.
     * `isOpen` says whether the output file could be opened; if not, nothing is written.
     */
    method ExportPly(out: OutStream, isOpen: bool) returns (ok: bool)
      modifies out`written
      ensures ok == isOpen
      ensures out.written == old(out.written) + (if isOpen then ExportBytes(pointVec) else [])
    {
      if !isOpen {
        return false;
      }
      ghost var start := out.written;
      var points := pointVec;
      var header := HeaderBytes(|points|);
      out.Write(header);
      WriteRecords(out, points);
      AppendAssoc(start, header, RecordBytes(points));
      return true;
    }

    /**
     * `InitDebugCloud`: 15 points, five along each axis. `coord(i)` is the float
     * `i * DELTA` with `DELTA = 1.0f / 5`.
     */
    method InitDebugCloud(coord: nat -> bv32)
      modifies this`pointVec
      ensures pointVec == DebugCloud(coord)
    {
      var v := Resize([], 15);
      v := FillAxis(v, 0, coord);
      v := FillAxis(v, 1, coord);
      v := FillAxis(v, 2, coord);
      DebugCloudAt(coord);
      assert forall j :: 0 <= j < 15 ==> v[j] == DebugCloud(coord)[j];
      pointVec := v;
    }
  }

  /**
   * One of the three loops of `InitDebugCloud`: points `5 * axis` to `5 * axis + 4` get
   * their coordinate on `axis` and the axis colour; their normal is left as it was.
   */
  method FillAxis(v: seq<Point>, axis: nat, coord: nat -> bv32) returns (w: seq<Point>)
    requires axis < 3 && |v| == 15
    requires forall j :: 5 * axis <= j < 5 * axis + 5 ==> v[j].normal == Float3(0, 0, 0)
    ensures |w| == 15
    ensures forall j :: 0 <= j < 15 && !(5 * axis <= j < 5 * axis + 5) ==> w[j] == v[j]
    ensures forall i :: 0 <= i < 5 ==> w[5 * axis + i] == AxisPoint(axis, coord(i))
  {
    w := v;
    var i := 0;
    while i < 5
      invariant i <= 5 && |w| == 15
      invariant forall j :: 0 <= j < 15 && !(5 * axis <= j < 5 * axis + i) ==> w[j] == v[j]
      invariant forall k :: 0 <= k < i ==> w[5 * axis + k] == AxisPoint(axis, coord(k))
    {
      var at := 5 * axis + i;
      var p := w[at];
      if axis == 0 {
        p := Point(Float3(coord(i), 0, 0), p.normal, Color(255, 0, 0));
      } else if axis == 1 {
        p := Point(Float3(0, coord(i), 0), p.normal, Color(0, 255, 0));
      } else {
        p := Point(Float3(0, 0, coord(i)), p.normal, Color(0, 0, 255));
      }
      w := w[at := p];
      i := i + 1;
    }
  }

  /** The debug cloud holds five points on each axis, in the order x, y, z. */
  lemma DebugCloudAt(coord: nat -> bv32)
    ensures |DebugCloud(coord)| == 15
    ensures forall i :: 0 <= i < 5 ==> DebugCloud(coord)[i] == AxisPoint(0, coord(i))
    ensures forall i :: 0 <= i < 5 ==> DebugCloud(coord)[5 + i] == AxisPoint(1, coord(i))
    ensures forall i :: 0 <= i < 5 ==> DebugCloud(coord)[10 + i] == AxisPoint(2, coord(i))
  {
  }

  /** The record loop of `ExportPly`: each point's 27 bytes, in vector order. */
  method WriteRecords(out: OutStream, points: seq<Point>)
    modifies out`written
    ensures out.written == old(out.written) + RecordBytes(points)
  {
    ghost var start := out.written;
    assert points[..0] == [];
    var i := 0;
    while i < |points|
      invariant i <= |points|
      invariant out.written == start + RecordBytes(points[..i])
    {
      RecordBytesStep(points, i);
      AppendAssoc(start, RecordBytes(points[..i]), PointBytes(points[i]));
      out.Write(PointBytes(points[i]));
      i := i + 1;
    }
    assert points[..i] == points;
  }

  /** Point `i` of the axis `axis` (0 = x, red; 1 = y, green; 2 = z, blue), with a zero normal. */
  function AxisPoint(axis: nat, v: bv32): Point
    requires axis < 3
  {
    if axis == 0 then Point(Float3(v, 0, 0), Float3(0, 0, 0), Color(255, 0, 0))
    else if axis == 1 then Point(Float3(0, v, 0), Float3(0, 0, 0), Color(0, 255, 0))
    else Point(Float3(0, 0, v), Float3(0, 0, 0), Color(0, 0, 255))
  }

  /** The debug cloud: the x axis, then the y axis, then the z axis, five points each. */
  function DebugCloud(coord: nat -> bv32): seq<Point>
  {
    seq(15, i requires 0 <= i < 15 =>
      if i < 5 then AxisPoint(0, coord(i))
      else if i < 10 then AxisPoint(1, coord(i - 5))
      else AxisPoint(2, coord(i - 10)))
  }
}
