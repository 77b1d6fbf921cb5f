/**
 * src/gaussiancloud.cpp: a cloud of 3D gaussian splats read from and written to a binary
 * little-endian PLY file with a fixed header of 62 float properties. The reader checks
 * every header line with plain `getline` (comments are not skipped), reads 248-byte
 * records and keeps only the gaussians whose position lies in a fixed box; the writer
 * emits the same header and every gaussian.
 */
module GaussianCloudFile {

  import opened Common
  import opened Stream
  import opened Bits
  import Util
  import Decimal

  /** The 62 floats of a `Gaussian`, as bit patterns, in field order. */
  type Floats62 = s: seq<bv32> | |s| == 62 witness ZeroFloats(62)

  /** `n` zero floats. */
  function ZeroFloats(n: nat): (s: seq<bv32>)
    ensures |s| == n
  {
    if n == 0 then [] else ZeroFloats(n - 1) + [0]
  }

  /**
   * `GaussianCloud::Gaussian`: position[3], normal[3], f_dc[3], f_rest[45], opacity,
   * scale[3] and rot[4], packed without padding.
   */
  datatype Gaussian = Gaussian(floats: Floats62)

  // ---------------------------------------------------------------------------------
  // Records.

  /** The bytes of a run of floats, four per float, in order. */
  function FloatsBytes(fs: seq<bv32>): (b: seq<byte>)
    ensures |b| == 4 * |fs|
    decreases |fs|
  {
    if fs == [] then [] else FloatsBytes(fs[..|fs| - 1]) + F32Bytes(fs[|fs| - 1])
  }

  /** Float `i` of the run occupies bytes [4i, 4i + 4). */
  lemma {:induction false} FloatsBytesAt(fs: seq<bv32>, i: nat)
    requires i < |fs|
    ensures FloatsBytes(fs)[4 * i..4 * i + 4] == F32Bytes(fs[i])
    decreases |fs|
  {
    var n := |fs| - 1;
    var init := fs[..n];
    var a, b := FloatsBytes(init), F32Bytes(fs[n]);
    assert FloatsBytes(fs) == a + b;
    if i < n {
      FloatsBytesAt(init, i);
      assert init[i] == fs[i];
      SliceLeft(a, b, 4 * i, 4 * i + 4);
    } else {
      assert i == n && |a| == 4 * i && |b| == 4;
      SliceRight(a, b, 0, 4);
      assert b[0..4] == b;
    }
  }

  /** The 248 bytes `GAUSSIAN_SIZE` of a gaussian, as it lies in memory. */
  function GaussianBytes(g: Gaussian): (b: seq<byte>)
    ensures |b| == 248
  {
    FloatsBytes(g.floats)
  }

  /** The gaussian a `read` of 248 bytes into `g` produces. */
  function GaussianOf(b: seq<byte>): Gaussian
    requires |b| == 248
  {
    Gaussian(seq(62, (i: nat) requires i < 62 => F32Of(b[4 * i..4 * i + 4])))
  }

  /** A gaussian written and read back is the same gaussian. */
  lemma GaussianRoundTrip(g: Gaussian)
    ensures GaussianOf(GaussianBytes(g)) == g
  {
    var fs := GaussianOf(GaussianBytes(g)).floats;
    forall i | 0 <= i < 62
      ensures fs[i] == g.floats[i]
    {
      FloatsBytesAt(g.floats, i);
      F32RoundTrip(g.floats[i]);
    }
    assert fs == g.floats;
  }

  // ---------------------------------------------------------------------------------
  // The header.

  const StartLines: seq<string> := PlyStart

  const FirstProperty: string := PropertyLine("float", "x")

  /** `name_0` ... `name_{n-1}`: the names of an array field of the gaussian. */
  function Indexed(prefix: string, n: nat): (r: seq<string>)
    ensures |r| == n
  {
    seq(n, (i: nat) requires i < n => prefix + Decimal.NatToString(i))
  }

  /** The property names after "x", in field order. */
  const OtherNames: seq<string> :=
    ["y", "z", "nx", "ny", "nz"] + Indexed("f_dc_", 3) + Indexed("f_rest_", 45)
    + ["opacity"] + Indexed("scale_", 3) + Indexed("rot_", 4)

  /** The header lines after "property float x", ending with "end_header". */
  const OtherProperties: seq<string> := PropertyLinesOf(OtherNames) + ["end_header"]

  /** One property line per name, in order. */
  function PropertyLinesOf(names: seq<string>): (r: seq<string>)
    ensures |r| == |names|
    ensures forall k :: 0 <= k < |names| ==> r[k] == PropertyLine("float", names[k])
  {
    if names == [] then [] else [PropertyLine("float", names[0])] + PropertyLinesOf(names[1..])
  }

  /** All property lines and "end_header", as the importer checks them. */
  function PropertyLines(): seq<string>
  {
    [FirstProperty] + OtherProperties
  }

  /** There is one property line per float of a gaussian, then "end_header". */
  lemma PropertyCount()
    ensures |PropertyLines()| == 62 + 1
  {
  }

  /** Why an import stopped; the source logs "Invalid ply file" for every header error. */
  datatype Status =
    | Imported
    | NotOpened             // the file could not be opened
    | InvalidHeader         // "ply" or the format line missing or different
    | BadElementLine        // no element line, or not "element vertex <int>"
    | InvalidProperties     // a property line or "end_header" missing or different
    | ShortRead(index: nat) // record `index` is incomplete
    | LengthError           // a negative count makes `reserve` throw

  datatype Header = HeaderFailed(status: Status) | HeaderOk(count: int, body: nat)

  /** The header part of `ImportPly`: its error, or the count and where records start. */
  function GaussianHeader(data: seq<byte>, pos: nat): (h: Header)
    requires pos <= |data|
    ensures h.HeaderOk? ==> h.body <= |data|
    ensures h.HeaderFailed? ==> h.status in {InvalidHeader, BadElementLine, InvalidProperties}
  {
    match MatchLines(data, pos, StartLines, false)
    case None => HeaderFailed(InvalidHeader)
    case Some(p1) =>
      match GetLine(data, p1)
      case None => HeaderFailed(BadElementLine)
      case Some(l) =>
        match VertexCount(l.text)
        case None => HeaderFailed(BadElementLine)
        case Some(n) =>
          match MatchLines(data, l.next, [FirstProperty] + OtherProperties, false)
          case None => HeaderFailed(InvalidProperties)
          case Some(b) => HeaderOk(n, b)
  }

  // ---------------------------------------------------------------------------------
  // The records and the box filter.

  /**
   * The box of `ImportPly`: centred on the fixed position (with 3 added to z), 300 units
   * wide on each axis. The source computes the corners in `float`.
   */
  const BoxCenter: Vec3 := Vec3(-3.0089893469241797, -0.11086489695181866, -3.7527640949141428 + 3.0)
  const BoxMin: Vec3 := Vec3(BoxCenter.x - 0.5 * 300.0, BoxCenter.y - 0.5 * 300.0, BoxCenter.z - 0.5 * 300.0)
  const BoxMax: Vec3 := Vec3(BoxCenter.x + 0.5 * 300.0, BoxCenter.y + 0.5 * 300.0, BoxCenter.z + 0.5 * 300.0)

  /** The position of a gaussian, read through `toReal`, the value of a float's bits. */
  function PositionOf(g: Gaussian, toReal: bv32 -> real): Vec3
  {
    Vec3(toReal(g.floats[0]), toReal(g.floats[1]), toReal(g.floats[2]))
  }

  /** The test a gaussian must pass to be kept. */
  predicate InBox(g: Gaussian, toReal: bv32 -> real)
  {
    Util.PointInsideAABB(PositionOf(g, toReal), BoxMin, BoxMax)
  }

  /** Record `i` after the header at `body`. */
  function Record(data: seq<byte>, body: nat, i: nat): Gaussian
    requires body + 248 * i + 248 <= |data|
  {
    GaussianOf(data[body + 248 * i..body + 248 * i + 248])
  }

  /** What the box test appends for one gaussian: the gaussian itself, or nothing. */
  function KeepIfInside(g: Gaussian, toReal: bv32 -> real): seq<Gaussian>
  {
    if InBox(g, toReal) then [g] else []
  }

  /** The gaussians the loop has appended after `i` complete records. */
  function Kept(data: seq<byte>, body: nat, i: nat, toReal: bv32 -> real): seq<Gaussian>
    requires body + 248 * i <= |data|
    decreases i
  {
    if i == 0 then []
    else
      var g := Record(data, body, i - 1);
      Kept(data, body, i - 1, toReal) + KeepIfInside(g, toReal)
  }

  /**
   * The record loop for a count `n`: with `k` complete records in the file, all `n` are
   * read, or record `k` is incomplete and the loop stops with what it has appended.
   */
  function GaussianBody(data: seq<byte>, body: nat, n: nat, toReal: bv32 -> real): (Status, seq<Gaussian>)
    requires body <= |data|
  {
    var k := (|data| - body) / 248;
    if k >= n then (Imported, Kept(data, body, n, toReal))
    else (ShortRead(k), Kept(data, body, k, toReal))
  }

  /** One more complete record: the loop appends it exactly when it is inside the box. */
  lemma KeptStep(data: seq<byte>, body: nat, i: nat, got: seq<byte>, toReal: bv32 -> real)
    requires body + 248 * i + 248 <= |data| && got == data[body + 248 * i..body + 248 * i + 248]
    ensures Kept(data, body, i + 1, toReal)
      == Kept(data, body, i, toReal) + KeepIfInside(GaussianOf(got), toReal)
  {
  }

  /** All `n` records complete: the loop ends with everything it kept. */
  lemma BodyComplete(data: seq<byte>, body: nat, n: nat, toReal: bv32 -> real)
    requires body + 248 * n <= |data|
    ensures GaussianBody(data, body, n, toReal) == (Imported, Kept(data, body, n, toReal))
  {
  }

  /** Record `i` incomplete: the loop stops there with what it kept so far. */
  lemma BodyShort(data: seq<byte>, body: nat, n: nat, i: nat, toReal: bv32 -> real)
    requires i < n && body + 248 * i <= |data| < body + 248 * i + 248
    ensures GaussianBody(data, body, n, toReal) == (ShortRead(i), Kept(data, body, i, toReal))
  {
    assert (|data| - body) / 248 == i;
  }

  /** `ImportPly` as a function of the file, the read position and the old `gaussianVec`. */
  function ImportSpec(data: seq<byte>, pos: nat, old_gaussians: seq<Gaussian>, toReal: bv32 -> real): (Status, seq<Gaussian>)
    requires pos <= |data|
  {
    match GaussianHeader(data, pos)
    case HeaderFailed(st) => (st, old_gaussians)
    case HeaderOk(n, body) =>
      if n < 0 then (LengthError, old_gaussians)
      else
        var r := GaussianBody(data, body, n, toReal);
        (r.0, old_gaussians + r.1)
  }

  /** The gaussians that pass the box test, in their order: the reference filter. */
  function Filter(gs: seq<Gaussian>, toReal: bv32 -> real): seq<Gaussian>
    decreases |gs|
  {
    if gs == [] then []
    else KeepIfInside(gs[0], toReal) + Filter(gs[1..], toReal)
  }

  /** Filtering one more gaussian at the end. */
  lemma {:induction false} FilterSnoc(gs: seq<Gaussian>, g: Gaussian, toReal: bv32 -> real)
    ensures Filter(gs + [g], toReal) == Filter(gs, toReal) + KeepIfInside(g, toReal)
    decreases |gs|
  {
    if gs == [] {
      assert [] + [g] == [g];
      assert [g][1..] == [];
    } else {
      assert (gs + [g])[0] == gs[0] && (gs + [g])[1..] == gs[1..] + [g];
      FilterSnoc(gs[1..], g, toReal);
      var k := KeepIfInside(gs[0], toReal);
      assert k + (Filter(gs[1..], toReal) + KeepIfInside(g, toReal))
          == (k + Filter(gs[1..], toReal)) + KeepIfInside(g, toReal);
    }
  }

  /** The filter keeps at most what it is given, and only gaussians inside the box. */
  lemma {:induction false} FilterBounds(gs: seq<Gaussian>, toReal: bv32 -> real)
    ensures |Filter(gs, toReal)| <= |gs|
    ensures forall j :: 0 <= j < |Filter(gs, toReal)| ==> InBox(Filter(gs, toReal)[j], toReal)
    decreases |gs|
  {
    if gs != [] {
      FilterBounds(gs[1..], toReal);
    }
  }

  /** When every gaussian is inside the box, the filter keeps them all. */
  lemma {:induction false} FilterAllInside(gs: seq<Gaussian>, toReal: bv32 -> real)
    requires forall j :: 0 <= j < |gs| ==> InBox(gs[j], toReal)
    ensures Filter(gs, toReal) == gs
    decreases |gs|
  {
    if gs != [] {
      FilterAllInside(gs[1..], toReal);
      assert [gs[0]] + gs[1..] == gs;
    }
  }

  /** The first `i` records, decoded. */
  function Records(data: seq<byte>, body: nat, i: nat): (r: seq<Gaussian>)
    requires body + 248 * i <= |data|
    ensures |r| == i
  {
    seq(i, (j: nat) requires j < i => Record(data, body, j))
  }

  /** The loop appends exactly the records that pass the box test, in file order. */
  lemma {:induction false} KeptIsFilter(data: seq<byte>, body: nat, i: nat, toReal: bv32 -> real)
    requires body + 248 * i <= |data|
    ensures Kept(data, body, i, toReal) == Filter(Records(data, body, i), toReal)
    decreases i
  {
    if i > 0 {
      KeptIsFilter(data, body, i - 1, toReal);
      var prev := Records(data, body, i - 1);
      assert Records(data, body, i) == prev + [Record(data, body, i - 1)];
      FilterSnoc(prev, Record(data, body, i - 1), toReal);
    }
  }

  /** The record loop appends at most `n` gaussians, each inside the box. */
  lemma BodyBounds(data: seq<byte>, body: nat, n: nat, toReal: bv32 -> real)
    requires body <= |data|
    ensures var added := GaussianBody(data, body, n, toReal).1;
      |added| <= n && forall j :: 0 <= j < |added| ==> InBox(added[j], toReal)
  {
    var k := (|data| - body) / 248;
    var m := if k >= n then n else k;
    KeptIsFilter(data, body, m, toReal);
    FilterBounds(Records(data, body, m), toReal);
  }

  /**
   * A successful or failed import keeps the old gaussians in front and appends at most
   * `count` new ones, every one of them inside the box.
   */
  lemma ImportAppends(data: seq<byte>, pos: nat, old_gaussians: seq<Gaussian>, toReal: bv32 -> real)
    requires pos <= |data|
    ensures var v := ImportSpec(data, pos, old_gaussians, toReal).1;
      |old_gaussians| <= |v| && v[..|old_gaussians|] == old_gaussians
      && (forall j :: |old_gaussians| <= j < |v| ==> InBox(v[j], toReal))
    ensures var h := GaussianHeader(data, pos);
      h.HeaderOk? && h.count >= 0 ==> |ImportSpec(data, pos, old_gaussians, toReal).1| <= |old_gaussians| + h.count
  {
    var h := GaussianHeader(data, pos);
    if h.HeaderOk? && h.count >= 0 {
      var r := GaussianBody(data, h.body, h.count, toReal);
      assert ImportSpec(data, pos, old_gaussians, toReal) == (r.0, old_gaussians + r.1);
      BodyBounds(data, h.body, h.count, toReal);
      AppendedParts(old_gaussians, r.1, toReal);
    } else {
      assert ImportSpec(data, pos, old_gaussians, toReal).1 == old_gaussians;
      AppendedParts(old_gaussians, [], toReal);
      assert old_gaussians + [] == old_gaussians;
    }
  }

  lemma AppendedParts(a: seq<Gaussian>, b: seq<Gaussian>, toReal: bv32 -> real)
    requires forall j :: 0 <= j < |b| ==> InBox(b[j], toReal)
    ensures (a + b)[..|a|] == a && forall j :: |a| <= j < |a + b| ==> InBox((a + b)[j], toReal)
  {
    assert forall j :: |a| <= j < |a + b| ==> (a + b)[j] == b[j - |a|];
  }

  // ---------------------------------------------------------------------------------
  // The file `ExportPly` writes.

  /** The header `ExportPly` writes, with the count of gaussians. */
  function HeaderLines(n: nat): seq<string>
  {
    StartLines + ([ElementLine(n)] + ([FirstProperty] + OtherProperties))
  }

  /** The header lines as bytes, each ended by '\n'. */
  function HeaderBytes(n: nat): seq<byte>
  {
    HeaderWritable(n);
    LinesBytes(HeaderLines(n))
  }

  /** The record bytes of the gaussians, 248 per gaussian, in vector order. */
  function RecordBytes(gs: seq<Gaussian>): (b: seq<byte>)
    ensures |b| == 248 * |gs|
    decreases |gs|
  {
    if gs == [] then [] else RecordBytes(gs[..|gs| - 1]) + GaussianBytes(gs[|gs| - 1])
  }

  /** The whole file `ExportPly` writes. */
  function ExportBytes(gs: seq<Gaussian>): seq<byte>
  {
    HeaderBytes(|gs|) + RecordBytes(gs)
  }

  /** Record `i` of the written bytes is exactly gaussian `i`'s bytes. */
  lemma {:induction false} RecordBytesAt(gs: seq<Gaussian>, i: nat)
    requires i < |gs|
    ensures RecordBytes(gs)[248 * i..248 * i + 248] == GaussianBytes(gs[i])
    decreases |gs|
  {
    var n := |gs| - 1;
    var init := gs[..n];
    var a, b := RecordBytes(init), GaussianBytes(gs[n]);
    assert RecordBytes(gs) == a + b;
    if i < n {
      RecordBytesAt(init, i);
      assert init[i] == gs[i];
      SliceLeft(a, b, 248 * i, 248 * i + 248);
    } else {
      assert i == n && |a| == 248 * i && |b| == 248;
      SliceRight(a, b, 0, 248);
      assert b[0..248] == b;
    }
  }

  /** Writing one more gaussian appends its bytes. */
  lemma RecordBytesStep(gs: seq<Gaussian>, i: nat)
    requires i < |gs|
    ensures RecordBytes(gs[..i + 1]) == RecordBytes(gs[..i]) + GaussianBytes(gs[i])
  {
    assert gs[..i + 1][..i] == gs[..i];
  }

  /** Every header line is writable. */
  lemma HeaderWritable(n: nat)
    ensures AllWritable(HeaderLines(n)) && NoComments(HeaderLines(n))
  {
    ElementLineWritable(n);
    FixedLinesWritable();
    var tail := [FirstProperty] + OtherProperties;
    assert ([ElementLine(n)] + tail)[1..] == tail;
    AllWritableAppend(StartLines, [ElementLine(n)] + tail);
  }

  lemma FixedLinesWritable()
    ensures AllWritable(StartLines) && NoComments(StartLines)
    ensures AllWritable([FirstProperty] + OtherProperties) && NoComments([FirstProperty] + OtherProperties)
  {
    PlyStartWritable();
    PropertyLinesPlain();
    AllWritableOf(PropertyLines());
  }

  lemma PropertyLinesPlain()
    ensures forall k :: 0 <= k < |PropertyLines()| ==> Writable(PropertyLines()[k])
    ensures forall k :: 0 <= k < |PropertyLines()| ==> |PropertyLines()[k]| > 0 && PropertyLines()[k][0] != 'c'
  {
    OtherNamesWritable();
    FloatWritable();
    EndHeaderWritable();
    var lines := [FirstProperty] + OtherProperties;
    forall k | 0 <= k < |lines|
      ensures Writable(lines[k]) && |lines[k]| > 0 && lines[k][0] != 'c'
    {
      if k == 0 {
        NamesWritable();
        PropertyLineWritable("float", "x");
      } else if k < 62 {
        assert lines[k] == PropertyLine("float", OtherNames[k - 1]);
        PropertyLineWritable("float", OtherNames[k - 1]);
      }
    }
  }

  /** Every name is one-byte text without '\n'. */
  predicate AllWritableNames(names: seq<string>)
  {
    forall k :: 0 <= k < |names| ==> Writable(names[k])
  }

  lemma IndexedWritable(prefix: string, n: nat)
    requires Writable(prefix)
    ensures AllWritableNames(Indexed(prefix, n))
  {
    forall k | 0 <= k < n
      ensures Writable(Indexed(prefix, n)[k])
    {
      var d := Decimal.NatToString(k);
      assert forall i :: 0 <= i < |d| ==> Decimal.IsDigit(d[i]);
      WritableAppend(prefix, d);
    }
  }

  lemma NamesAppend(a: seq<string>, b: seq<string>)
    requires AllWritableNames(a) && AllWritableNames(b)
    ensures AllWritableNames(a + b)
  {
  }

  lemma FloatWritable()
    ensures Writable("float")
  {
  }

  lemma NamesWritable()
    ensures Writable("x") && AllWritableNames(["y", "z", "nx", "ny", "nz"]) && AllWritableNames(["opacity"])
  {
  }

  lemma PrefixesWritable()
    ensures Writable("f_dc_") && Writable("f_rest_") && Writable("scale_") && Writable("rot_")
  {
  }

  lemma OtherNamesWritable()
    ensures AllWritableNames(OtherNames)
  {
    NamesWritable();
    PrefixesWritable();
    IndexedWritable("f_dc_", 3);
    IndexedWritable("f_rest_", 45);
    IndexedWritable("scale_", 3);
    IndexedWritable("rot_", 4);
    var a := ["y", "z", "nx", "ny", "nz"];
    var b := a + Indexed("f_dc_", 3);
    var c := b + Indexed("f_rest_", 45);
    var d := c + ["opacity"];
    var e := d + Indexed("scale_", 3);
    NamesAppend(a, Indexed("f_dc_", 3));
    NamesAppend(b, Indexed("f_rest_", 45));
    NamesAppend(c, ["opacity"]);
    NamesAppend(d, Indexed("scale_", 3));
    NamesAppend(e, Indexed("rot_", 4));
  }

  /** The header lines match what `ExportPly` wrote, up to the end of the header. */
  lemma HeaderMatches(n: nat, rest: seq<byte>)
    ensures MatchLines(HeaderBytes(n) + rest, 0, HeaderLines(n), false) == Some(|HeaderBytes(n)|)
  {
    var header := HeaderBytes(n);
    HeaderWritable(n);
    SliceLeft(header, rest, 0, |header|);
    assert header[0..|header|] == header;
    MatchWritten(header + rest, 0, HeaderLines(n), false);
  }

  /** The header `ExportPly` writes is accepted, with the count, when the count fits in an `int`. */
  lemma ExportedHeader(n: nat, rest: seq<byte>)
    requires n <= IntMax
    ensures GaussianHeader(HeaderBytes(n) + rest, 0) == HeaderOk(n, |HeaderBytes(n)|)
  {
    var data := HeaderBytes(n) + rest;
    HeaderMatches(n, rest);
    var _, p2, _ := MatchLinesParts(data, 0, StartLines, ElementLine(n), FirstProperty,
                                    OtherProperties, false, |HeaderBytes(n)|);
    MatchLinesCons(data, p2, FirstProperty, OtherProperties, false);
    ElementLineCount(n);
  }

  /** Record `j` of a body placed after any header decodes to the gaussian whose bytes it holds. */
  lemma RecordAfterHeader(header: seq<byte>, rec: seq<byte>, j: nat, g: Gaussian)
    requires 248 * j + 248 <= |rec| && rec[248 * j..248 * j + 248] == GaussianBytes(g)
    ensures Record(header + rec, |header|, j) == g
  {
    SliceRight(header, rec, 248 * j, 248 * j + 248);
    GaussianRoundTrip(g);
  }

  /** The records `ExportPly` writes after any header decode to the gaussians. */
  lemma ExportedRecords(header: seq<byte>, gs: seq<Gaussian>, toReal: bv32 -> real)
    ensures GaussianBody(header + RecordBytes(gs), |header|, |gs|, toReal) == (Imported, Filter(gs, toReal))
  {
    var data := header + RecordBytes(gs);
    var rs := Records(data, |header|, |gs|);
    forall j | 0 <= j < |gs|
      ensures rs[j] == gs[j]
    {
      RecordBytesAt(gs, j);
      RecordAfterHeader(header, RecordBytes(gs), j, gs[j]);
    }
    assert rs == gs;
    KeptIsFilter(data, |header|, |gs|, toReal);
  }

  /**
   * Importing what `ExportPly` wrote appends the exported gaussians that lie inside the
   * box, in order, to whatever the cloud held before.
   */
  lemma ExportImportRoundTrip(gs: seq<Gaussian>, old_gaussians: seq<Gaussian>, toReal: bv32 -> real)
    requires |gs| <= IntMax
    ensures ImportSpec(ExportBytes(gs), 0, old_gaussians, toReal) == (Imported, old_gaussians + Filter(gs, toReal))
  {
    ExportedHeader(|gs|, RecordBytes(gs));
    ExportedRecords(HeaderBytes(|gs|), gs, toReal);
  }

  /** A cloud all inside the box, exported into an empty cloud, comes back unchanged. */
  lemma ExportImportInside(gs: seq<Gaussian>, toReal: bv32 -> real)
    requires |gs| <= IntMax
    requires forall j :: 0 <= j < |gs| ==> InBox(gs[j], toReal)
    ensures ImportSpec(ExportBytes(gs), 0, [], toReal) == (Imported, gs)
  {
    ExportImportRoundTrip(gs, [], toReal);
    FilterAllInside(gs, toReal);
    assert [] + gs == gs;
  }

  // ---------------------------------------------------------------------------------
  // The gaussian cloud.

  class GaussianCloud {
    var gaussianVec: seq<Gaussian>

    constructor ()
      ensures gaussianVec == []
    {
      gaussianVec := [];
    }

    /**
     * `ImportPly`: the fixed header, then `numGaussians` records, appended to
     * `gaussianVec` when inside the box. The file is the stream `s`, and `isOpen` says whether
     * it opened; `toReal` gives the value of a float's bits for the box test.
     */
    method ImportPly(s: InStream, isOpen: bool, toReal: bv32 -> real) returns (status: Status)
      requires s.Valid()
      modifies this`gaussianVec, s`pos
      ensures s.Valid()
      ensures !isOpen ==> status == NotOpened && gaussianVec == old(gaussianVec) && s.pos == old(s.pos)
      ensures isOpen ==> (status, gaussianVec) == ImportSpec(s.data, old(s.pos), old(gaussianVec), toReal)
    {
      if !isOpen {
        return NotOpened;
      }
      var ok := s.CheckLines(StartLines, false);
      if !ok {
        return InvalidHeader;
      }
      var got, line := s.Getline();
      if !got {
        return BadElementLine;
      }
      var count := VertexCount(line);
      if count.None? {
        return BadElementLine;
      }
      ok := s.CheckLines([FirstProperty] + OtherProperties, false);
      if !ok {
        return InvalidProperties;
      }
      var numGaussians := count.value;
      if numGaussians < 0 {
        return LengthError;
      }
      status := ReadRecords(s, numGaussians, toReal);
    }

    /** The record loop: each record is read into a local gaussian and kept if inside the box. */
    method ReadRecords(s: InStream, numGaussians: nat, toReal: bv32 -> real) returns (status: Status)
      requires s.Valid()
      modifies this`gaussianVec, s`pos
      ensures s.Valid()
      ensures status == GaussianBody(s.data, old(s.pos), numGaussians, toReal).0
      ensures gaussianVec == old(gaussianVec) + GaussianBody(s.data, old(s.pos), numGaussians, toReal).1
    {
      ghost var body := s.pos;
      ghost var start := gaussianVec;
      ghost var kept: seq<Gaussian> := [];
      var i := 0;
      while i < numGaussians
        invariant i <= numGaussians && s.Valid() && s.pos == body + 248 * i
        invariant kept == Kept(s.data, body, i, toReal) && gaussianVec == start + kept
      {
        var got := s.Read(248);
        if |got| != 248 {
          BodyShort(s.data, body, numGaussians, i, toReal);
          return ShortRead(i);
        }
        KeptStep(s.data, body, i, got, toReal);
        var g := GaussianOf(got);
        var p := PositionOf(g, toReal);
        if Util.PointInsideAABB(p, BoxMin, BoxMax) {
          AppendAssoc(start, kept, [g]);
          gaussianVec := gaussianVec + [g];
          kept := kept + [g];
        } else {
          assert kept + [] == kept;
        }
        i := i + 1;
      }
      BodyComplete(s.data, body, numGaussians, toReal);
      return Imported;
    }

    /**
     * `ExportPly`: the header with the gaussian count, then 248 bytes per gaussian.
     * `isOpen` says whether the output file could be opened; if not, nothing is written.
     */
    method ExportPly(out: OutStream, isOpen: bool) returns (ok: bool)
      modifies out`written
      ensures ok == isOpen
      ensures out.written == old(out.written) + (if isOpen then ExportBytes(gaussianVec) else [])
    {
      if !isOpen {
        return false;
      }
      ghost var start := out.written;
      var gs := gaussianVec;
      var header := HeaderBytes(|gs|);
      out.Write(header);
      WriteRecords(out, gs);
      AppendAssoc(start, header, RecordBytes(gs));
      return true;
    }
  }

  /** The record loop of `ExportPly`: each gaussian's 248 bytes, in vector order. */
  method WriteRecords(out: OutStream, gs: seq<Gaussian>)
    modifies out`written
    ensures out.written == old(out.written) + RecordBytes(gs)
  {
    ghost var start := out.written;
    assert gs[..0] == [];
    var i := 0;
    while i < |gs|
      invariant i <= |gs|
      invariant out.written == start + RecordBytes(gs[..i])
    {
      RecordBytesStep(gs, i);
      AppendAssoc(start, RecordBytes(gs[..i]), GaussianBytes(gs[i]));
      out.Write(GaussianBytes(gs[i]));
      i := i + 1;
    }
    assert gs[..i] == gs;
  }
}
