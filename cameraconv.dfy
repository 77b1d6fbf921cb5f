/**
 * cameraconv.py: a pose log (`timestamp x y z qx qy qz qw` per line) becomes a list of
 * camera descriptors with positional ids, decimal image names, fixed intrinsics and the
 * rotation matrix of each pose's quaternion.
 *
 * Python's `float()` on one field is a parameter `toFloat` (None stands for its ValueError);
 * the file is given as its sequence of lines, and the JSON dump is not modelled.
 */
module CameraConv {

  import opened Common
  import opened Text
  import opened Quat
  import Decimal

  /** The exceptions the script can raise while converting. */
  datatype Failure =
    | IndexError                  // fewer than 8 fields on a line
    | ValueError(field: string)   // `float(field)` rejected the field
    | ZeroDivisionError           // the zero quaternion has no rotation matrix

  datatype Result<T> = Ok(value: T) | Err(failure: Failure)

  /** The `Camera` namedtuple. */
  datatype PoseRecord = PoseRecord(timestamp: real, x: real, y: real, z: real,
                                   qx: real, qy: real, qz: real, qw: real)

  /** One element of the JSON array written to cameras.json. */
  datatype Descriptor = Descriptor(id: nat, imgName: string, timestamp: real,
                                   width: int, height: int, position: seq<real>,
                                   rotation: Mat3, fx: real, fy: real)

  const ImageWidth: int := 1920
  const ImageHeight: int := 1080
  const FocalLength: real := 1000.0

  // ---------------------------------------------------------------------------------
  // `str.strip()` with no argument: Python's whitespace characters.

  predicate IsPySpace(c: char)
  {
    c == ' ' || '\t' <= c <= '\r' || '\U{1C}' <= c <= '\U{1F}' || c == '\U{85}' || c == '\U{A0}'
    || c == '\U{1680}' || '\U{2000}' <= c <= '\U{200A}' || c == '\U{2028}' || c == '\U{2029}'
    || c == '\U{202F}' || c == '\U{205F}' || c == '\U{3000}'
  }

  function TrimStart(s: string): (t: string)
    ensures |t| <= |s|
  {
    if s == [] || !IsPySpace(s[0]) then s else TrimStart(s[1..])
  }

  function TrimEnd(s: string): (t: string)
    ensures |t| <= |s|
  {
    if s == [] || !IsPySpace(s[|s| - 1]) then s else TrimEnd(s[..|s| - 1])
  }

  function Strip(s: string): string
  {
    TrimEnd(TrimStart(s))
  }

  /** `lstrip()` removes exactly the leading whitespace. */
  lemma {:induction false} TrimStartSpec(s: string)
    ensures var t := TrimStart(s);
      t == s[|s| - |t|..] && (forall k :: 0 <= k < |s| - |t| ==> IsPySpace(s[k])) && (t == [] || !IsPySpace(t[0]))
  {
    if s != [] && IsPySpace(s[0]) {
      TrimStartSpec(s[1..]);
    }
  }

  /** `rstrip()` removes exactly the trailing whitespace. */
  lemma {:induction false} TrimEndSpec(s: string)
    ensures var t := TrimEnd(s);
      t == s[..|t|] && (forall k :: |t| <= k < |s| ==> IsPySpace(s[k])) && (t == [] || !IsPySpace(t[|t| - 1]))
  {
    if s != [] && IsPySpace(s[|s| - 1]) {
      TrimEndSpec(s[..|s| - 1]);
    }
  }

  /** `if line.strip():` is false exactly for lines made only of whitespace. */
  lemma StripEmptyIffAllSpace(s: string)
    ensures Strip(s) == "" <==> forall k :: 0 <= k < |s| ==> IsPySpace(s[k])
  {
    TrimStartSpec(s);
    var t := TrimStart(s);
    TrimEndSpec(t);
  }

  /**
   * Stripping removes only whitespace from the two ends and keeps the middle intact, and
   * the result neither starts nor ends with whitespace.
   */
  lemma StripIsInfix(s: string)
    ensures exists i, j :: (0 <= i <= j <= |s| && Strip(s) == s[i..j]
      && (forall k :: 0 <= k < i ==> IsPySpace(s[k])) && (forall k :: j <= k < |s| ==> IsPySpace(s[k])))
    ensures Strip(s) == [] || (!IsPySpace(Strip(s)[0]) && !IsPySpace(Strip(s)[|Strip(s)| - 1]))
  {
    TrimStartSpec(s);
    var t := TrimStart(s);
    TrimEndSpec(t);
    var i, j := |s| - |t|, |s| - |t| + |TrimEnd(t)|;
    assert Strip(s) == s[i..j];
    forall k | j <= k < |s| ensures IsPySpace(s[k]) {
      assert s[k] == t[k - i];
    }
  }

  // ---------------------------------------------------------------------------------
  // One line becomes one record.

  function Fields(line: string): seq<string>
  {
    SplitOn(Strip(line), ' ')
  }

  /**
   * `float(fields[k])`, `float(fields[k+1])`, ... up to field 7, evaluated left to right as
   * the keyword arguments of `Camera(...)` are: the first missing field raises IndexError,
   * the first rejected one ValueError.
   */
  function ReadFloats(fields: seq<string>, toFloat: string -> Option<real>, k: nat): (r: Result<seq<real>>)
    requires k <= 8 && k <= |fields|
    decreases 8 - k
    ensures r.Ok? <==> |fields| >= 8 && forall i :: k <= i < 8 ==> toFloat(fields[i]).Some?
    ensures r.Ok? ==> |r.value| == 8 - k && forall i :: 0 <= i < 8 - k ==> r.value[i] == toFloat(fields[k + i]).value
  {
    if k == 8 then Ok([])
    else if k >= |fields| then Err(IndexError)
    else match toFloat(fields[k])
      case None => Err(ValueError(fields[k]))
      case Some(v) =>
        match ReadFloats(fields, toFloat, k + 1)
        case Err(e) => Err(e)
        case Ok(vs) => Ok([v] + vs)
  }

  /** The record built from one non-blank line. */
  function ParseRecord(line: string, toFloat: string -> Option<real>): Result<PoseRecord>
  {
    match ReadFloats(Fields(line), toFloat, 0)
    case Err(e) => Err(e)
    case Ok(v) => Ok(PoseRecord(v[0], v[1], v[2], v[3], v[4], v[5], v[6], v[7]))
  }

  /**
   * A line gives a record exactly when it has at least 8 fields and the first 8 all convert;
   * fields 0..7 become timestamp, x, y, z, qx, qy, qz, qw and later fields are ignored.
   */
  lemma ParseRecordFields(line: string, toFloat: string -> Option<real>)
    ensures var r, f := ParseRecord(line, toFloat), Fields(line);
      r.Ok? <==> |f| >= 8 && forall i :: 0 <= i < 8 ==> toFloat(f[i]).Some?
    ensures var r, f := ParseRecord(line, toFloat), Fields(line);
      r.Ok? ==> r.value == PoseRecord(toFloat(f[0]).value, toFloat(f[1]).value, toFloat(f[2]).value,
                                      toFloat(f[3]).value, toFloat(f[4]).value, toFloat(f[5]).value,
                                      toFloat(f[6]).value, toFloat(f[7]).value)
  {
  }

  /**
   * Two consecutive spaces inside the stripped line produce an empty field; when it is one of
   * the first eight and `float("")` is rejected (as Python's is), the line raises.
   */
  lemma DoubleSpaceFails(line: string, toFloat: string -> Option<real>, i: nat)
    requires toFloat("") == None
    requires var s := Strip(line); i + 1 < |s| && s[i] == ' ' && s[i + 1] == ' '
    requires forall k :: 0 <= k < |Fields(line)| && Fields(line)[k] == "" ==> k < 8
    ensures ParseRecord(line, toFloat).Err?
  {
    AdjacentSeparatorsGiveEmptyPart(Strip(line), ' ', i);
    ParseRecordFields(line, toFloat);
  }

  // ---------------------------------------------------------------------------------
  // The `for line in f` loop.

  predicate IsBlank(line: string) { Strip(line) == "" }

  /** The lines that produce a record, in file order. */
  function NonBlank(lines: seq<string>): (r: seq<string>)
    ensures |r| <= |lines|
  {
    if lines == [] then []
    else if IsBlank(lines[0]) then NonBlank(lines[1..])
    else [lines[0]] + NonBlank(lines[1..])
  }

  /** What the loop leaves in `cameras`, or the exception it raises first. */
  function ParsePoses(lines: seq<string>, parse: string -> Result<PoseRecord>): Result<seq<PoseRecord>>
  {
    if lines == [] then Ok([])
    else if IsBlank(lines[0]) then ParsePoses(lines[1..], parse)
    else match parse(lines[0])
      case Err(e) => Err(e)
      case Ok(rec) => Prepend([rec], ParsePoses(lines[1..], parse))
  }

  function Prepend(done: seq<PoseRecord>, rest: Result<seq<PoseRecord>>): Result<seq<PoseRecord>>
  {
    match rest
    case Err(e) => Err(e)
    case Ok(rs) => Ok(done + rs)
  }

  lemma PrependNothing(rest: Result<seq<PoseRecord>>)
    ensures Prepend([], rest) == rest
  {
    match rest
    case Err(_) =>
    case Ok(rs) => assert [] + rs == rs;
  }

  lemma PrependTwice(done: seq<PoseRecord>, rec: PoseRecord, rest: Result<seq<PoseRecord>>)
    ensures Prepend(done, Prepend([rec], rest)) == Prepend(done + [rec], rest)
  {
    match rest
    case Err(_) =>
    case Ok(rs) => assert done + ([rec] + rs) == done + [rec] + rs;
  }

  /** The reading loop of cameraconv.py: skip blank lines, append one record per other line. */
  method ReadPoses(lines: seq<string>, parse: string -> Result<PoseRecord>) returns (r: Result<seq<PoseRecord>>)
    ensures r == ParsePoses(lines, parse)
  {
    var cameras: seq<PoseRecord> := [];
    var k := 0;
    assert lines[0..] == lines;
    PrependNothing(ParsePoses(lines, parse));
    while k < |lines|
      invariant 0 <= k <= |lines|
      invariant ParsePoses(lines, parse) == Prepend(cameras, ParsePoses(lines[k..], parse))
    {
      var line := lines[k];
      assert lines[k..][0] == line && lines[k..][1..] == lines[k + 1..];
      if Strip(line) != "" {
        var rec := parse(line);
        if rec.Err? {
          return Err(rec.failure);
        }
        PrependTwice(cameras, rec.value, ParsePoses(lines[k + 1..], parse));
        cameras := cameras + [rec.value];
      }
      k := k + 1;
    }
    assert lines[k..] == [] && cameras + [] == cameras;
    r := Ok(cameras);
  }

  /**
   * On success there is exactly one record per non-blank line, in file order, and record k
   * is the one built from the k-th non-blank line.
   */
  lemma {:induction false} ParsePosesRecordPerLine(lines: seq<string>, parse: string -> Result<PoseRecord>)
    requires ParsePoses(lines, parse).Ok?
    ensures var recs, nb := ParsePoses(lines, parse).value, NonBlank(lines);
      |recs| == |nb| && forall k :: 0 <= k < |nb| ==> parse(nb[k]) == Ok(recs[k])
  {
    if lines != [] {
      ParsePosesRecordPerLine(lines[1..], parse);
      if !IsBlank(lines[0]) {
        var recs, nb := ParsePoses(lines, parse).value, NonBlank(lines);
        var rest := ParsePoses(lines[1..], parse).value;
        assert recs == [parse(lines[0]).value] + rest;
        forall k | 1 <= k < |nb| ensures parse(nb[k]) == Ok(recs[k]) {
          assert nb[k] == NonBlank(lines[1..])[k - 1];
        }
      }
    }
  }

  /** Line k of `nb` is the first one that fails to parse, and it fails with `e`. */
  predicate FirstFailureAt(nb: seq<string>, parse: string -> Result<PoseRecord>, k: nat, e: Failure)
  {
    k < |nb| && parse(nb[k]) == Err(e) && forall j :: 0 <= j < k ==> parse(nb[j]).Ok?
  }

  /** A failing conversion reports the failure of the first non-blank line that fails. */
  lemma {:induction false} ParsePosesReportsFirstFailure(lines: seq<string>, parse: string -> Result<PoseRecord>)
    requires ParsePoses(lines, parse).Err?
    ensures exists k: nat :: FirstFailureAt(NonBlank(lines), parse, k, ParsePoses(lines, parse).failure)
  {
    var nb, tail := NonBlank(lines), NonBlank(lines[1..]);
    var e := ParsePoses(lines, parse).failure;
    if IsBlank(lines[0]) {
      assert nb == tail;
      assert ParsePoses(lines, parse) == ParsePoses(lines[1..], parse);
      ParsePosesReportsFirstFailure(lines[1..], parse);
    } else {
      assert nb == [lines[0]] + tail;
      var first := parse(lines[0]);
      if first.Ok? {
        assert ParsePoses(lines, parse) == Prepend([first.value], ParsePoses(lines[1..], parse));
        assert ParsePoses(lines[1..], parse) == Err(e);
        ParsePosesReportsFirstFailure(lines[1..], parse);
        var k: nat :| FirstFailureAt(tail, parse, k, e);
        forall j | 0 <= j < k + 1 ensures parse(nb[j]).Ok? {
          if j > 0 { assert nb[j] == tail[j - 1]; }
        }
        assert nb[k + 1] == tail[k];
        assert FirstFailureAt(nb, parse, k + 1, e);
      } else {
        assert ParsePoses(lines, parse) == Err(first.failure);
        assert nb[0] == lines[0];
        assert FirstFailureAt(nb, parse, 0, e);
      }
    }
  }

  /** The conversion fails exactly when some non-blank line fails. */
  lemma ParsePosesFailsIffBadLine(lines: seq<string>, parse: string -> Result<PoseRecord>)
    ensures var nb := NonBlank(lines);
      ParsePoses(lines, parse).Err? <==> exists k :: 0 <= k < |nb| && parse(nb[k]).Err?
  {
    if ParsePoses(lines, parse).Err? {
      ParsePosesReportsFirstFailure(lines, parse);
    } else {
      var nb := NonBlank(lines);
      if exists k :: 0 <= k < |nb| && parse(nb[k]).Err? {
        ParsePosesRecordPerLine(lines, parse);
      }
    }
  }

  // ---------------------------------------------------------------------------------
  // The `for cam in cameras` loop.

  function RotationOf(cam: PoseRecord): Option<Mat3>
  {
    QuatToMat(cam.qx, cam.qy, cam.qz, cam.qw)
  }

  /**
   * The descriptor loop: object k has id k, image name `str(k)`, the record's timestamp and
   * position, the fixed intrinsics, and the rotation matrix of its quaternion; a zero
   * quaternion raises ZeroDivisionError.
   */
  method BuildDescriptors(cameras: seq<PoseRecord>) returns (r: Result<seq<Descriptor>>)
    ensures r.Ok? <==> forall k :: 0 <= k < |cameras| ==> RotationOf(cameras[k]).Some?
    ensures r.Err? ==> r.failure == ZeroDivisionError
    ensures r.Ok? ==> |r.value| == |cameras|
    ensures r.Ok? ==> forall k :: 0 <= k < |cameras| ==>
      var d, cam := r.value[k], cameras[k];
      && d.id == k && d.imgName == Decimal.NatToString(k)
      && d.timestamp == cam.timestamp && d.position == [cam.x, cam.y, cam.z]
      && d.width == ImageWidth && d.height == ImageHeight
      && d.fx == FocalLength && d.fy == FocalLength
      && Some(d.rotation) == RotationOf(cam)
  {
    var objs: seq<Descriptor> := [];
    var i := 0;
    while i < |cameras|
      invariant 0 <= i <= |cameras| && |objs| == i
      invariant forall k :: 0 <= k < i ==> RotationOf(cameras[k]).Some?
      invariant forall k :: 0 <= k < i ==>
        var d, cam := objs[k], cameras[k];
        && d.id == k && d.imgName == Decimal.NatToString(k)
        && d.timestamp == cam.timestamp && d.position == [cam.x, cam.y, cam.z]
        && d.width == ImageWidth && d.height == ImageHeight
        && d.fx == FocalLength && d.fy == FocalLength
        && Some(d.rotation) == RotationOf(cam)
    {
      var cam := cameras[i];
      var rotation := QuatToMat(cam.qx, cam.qy, cam.qz, cam.qw);
      if rotation.None? {
        return Err(ZeroDivisionError);
      }
      objs := objs + [Descriptor(i, Decimal.NatToString(i), cam.timestamp, ImageWidth, ImageHeight,
                                 [cam.x, cam.y, cam.z], rotation.value, FocalLength, FocalLength)];
      i := i + 1;
    }
    r := Ok(objs);
  }

  /** Image names are pairwise distinct, because distinct ids have distinct decimal text. */
  lemma ImageNamesUnique(descs: seq<Descriptor>)
    requires forall k :: 0 <= k < |descs| ==> descs[k].imgName == Decimal.NatToString(k)
    ensures forall a, b :: 0 <= a < b < |descs| ==> descs[a].imgName != descs[b].imgName
  {
    forall a, b | 0 <= a < b < |descs| ensures descs[a].imgName != descs[b].imgName {
      Decimal.NatToStringInjective(a, b);
    }
  }

  /** Every rotation in the output has orthonormal columns and determinant +1. */
  lemma RotationsOrthonormal(cam: PoseRecord)
    requires RotationOf(cam).Some?
    ensures Orthonormal(RotationOf(cam).value)
    ensures Det(RotationOf(cam).value) == 1.0
  {
    var q := Quaternion(cam.qw, cam.qx, cam.qy, cam.qz);
    AsRotationMatrixIsOrthonormal(q);
    AsRotationMatrixIsProper(q);
  }

  /** The per-line step of the reading loop: `Camera(...)` built from the line's fields. */
  function RecordParser(toFloat: string -> Option<real>): string -> Result<PoseRecord>
  {
    line => ParseRecord(line, toFloat)
  }

  /** The whole script: read the log, then build the descriptors. */
  method Convert(lines: seq<string>, toFloat: string -> Option<real>) returns (r: Result<seq<Descriptor>>)
    ensures var poses := ParsePoses(lines, RecordParser(toFloat));
      poses.Err? ==> r == Err(poses.failure)
    ensures var poses := ParsePoses(lines, RecordParser(toFloat));
      poses.Ok? ==> (r.Ok? <==> forall k :: 0 <= k < |poses.value| ==> RotationOf(poses.value[k]).Some?)
    ensures var poses := ParsePoses(lines, RecordParser(toFloat));
      poses.Ok? && r.Err? ==> r.failure == ZeroDivisionError
    ensures var poses := ParsePoses(lines, RecordParser(toFloat));
      r.Ok? ==> poses.Ok? && |r.value| == |poses.value| == |NonBlank(lines)|
    ensures var poses := ParsePoses(lines, RecordParser(toFloat));
      r.Ok? ==> forall k :: 0 <= k < |r.value| ==>
        var d, cam := r.value[k], poses.value[k];
        && d.id == k && d.imgName == Decimal.NatToString(k)
        && d.timestamp == cam.timestamp && d.position == [cam.x, cam.y, cam.z]
        && d.width == ImageWidth && d.height == ImageHeight
        && d.fx == FocalLength && d.fy == FocalLength
        && Some(d.rotation) == RotationOf(cam)
  {
    var cameras := ReadPoses(lines, RecordParser(toFloat));
    if cameras.Err? {
      return Err(cameras.failure);
    }
    ParsePosesRecordPerLine(lines, RecordParser(toFloat));
    r := BuildDescriptors(cameras.value);
  }
}
