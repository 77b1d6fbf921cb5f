// The debug line renderer: `Line` queues one coloured segment as two positions and two
// colours, `Transform` queues the three axes of a matrix, `Render` draws every queued
// position as a `GL_LINES` vertex and `EndFrame` empties the queue. The queued segments are
// kept as a ghost list beside the two flat lists the class really holds.
module DebugRendering {
  import opened Common
  import opened Util

  /** One queued line: its two end points and its colour. */
  datatype Segment = Segment(start: Vec3, end: Vec3, color: Vec3)

  /** The position list of `segments`: start and end of each, in order. */
  function Positions(segments: seq<Segment>): seq<Vec3>
  {
    if segments == [] then []
    else
      var last := segments[|segments| - 1];
      Positions(segments[..|segments| - 1]) + [last.start, last.end]
  }

  /** The colour list of `segments`: each colour twice, once per end point. */
  function Colors(segments: seq<Segment>): seq<Vec3>
  {
    if segments == [] then []
    else
      var last := segments[|segments| - 1];
      Colors(segments[..|segments| - 1]) + [last.color, last.color]
  }

  /**
   * The lists have equal, even length, and entries `2k` and `2k + 1` are segment `k`'s end
   * points and its colour: the segments can be read back from the flat lists.
   */
  lemma {:induction false} FlatLists(segments: seq<Segment>)
    ensures |Positions(segments)| == |Colors(segments)| == 2 * |segments|
    ensures forall k :: 0 <= k < |segments| ==>
      && Positions(segments)[2 * k] == segments[k].start
      && Positions(segments)[2 * k + 1] == segments[k].end
      && Colors(segments)[2 * k] == segments[k].color
      && Colors(segments)[2 * k + 1] == segments[k].color
  {
    if segments != [] {
      FlatLists(segments[..|segments| - 1]);
    }
  }

  /** Appending a segment appends its two positions and two colours. */
  lemma AppendSegment(segments: seq<Segment>, s: Segment)
    ensures Positions(segments + [s]) == Positions(segments) + [s.start, s.end]
    ensures Colors(segments + [s]) == Colors(segments) + [s.color, s.color]
  {
    assert (segments + [s])[..|segments|] == segments;
  }

  const Red: Vec3 := Vec3(1.0, 0.0, 0.0)
  const Green: Vec3 := Vec3(0.0, 1.0, 0.0)
  const Blue: Vec3 := Vec3(0.0, 0.0, 1.0)

  /**
   * The three lines of `Transform`: from the translation column along each of the first
   * three columns, scaled to `axisLen` by `normalize`, coloured red, green and blue.
   */
  function AxisSegments(m: Mat4, axisLen: real, normalize: Vec3 -> Vec3): (r: seq<Segment>)
    ensures |r| == 3
    ensures forall k :: 0 <= k < 3 ==> r[k].start == Truncate(m.c3)
    ensures r[0].color == Red && r[1].color == Green && r[2].color == Blue
    ensures r[0].end == Truncate(m.c3).Add(Scaled(axisLen, normalize(Truncate(m.c0))))
  {
    var p := Truncate(m.c3);
    [Segment(p, p.Add(Scaled(axisLen, normalize(Truncate(m.c0)))), Red),
     Segment(p, p.Add(Scaled(axisLen, normalize(Truncate(m.c1)))), Green),
     Segment(p, p.Add(Scaled(axisLen, normalize(Truncate(m.c2)))), Blue)]
  }

  /** A `Transform` of a pure translation queues three lines starting at that translation. */
  lemma TransformOfTranslation(t: Vec3, axisLen: real, normalize: Vec3 -> Vec3)
    ensures forall k :: 0 <= k < 3 ==> AxisSegments(Translation(t), axisLen, normalize)[k].start == t
  {
  }

  class DebugRenderer {
    /** Whether `ddProg` points at a program, which `Init` creates before loading its shaders. */
    var hasProgram: bool
    var linePositionVec: seq<Vec3>
    var lineColorVec: seq<Vec3>
    /** The lines queued since the last `EndFrame`. */
    ghost var segments: seq<Segment>

    /** The flat lists hold exactly the queued segments. */
    ghost predicate Valid()
      reads this
    {
      linePositionVec == Positions(segments) && lineColorVec == Colors(segments)
    }

    constructor()
      ensures Valid() && segments == [] && !hasProgram
    {
      hasProgram := false;
      linePositionVec := [];
      lineColorVec := [];
      segments := [];
    }

    /** `Init`: the program is created whether or not its shaders load; `loadOk` is whether they do. */
    method Init(loadOk: bool) returns (ok: bool)
      modifies this`hasProgram
      ensures hasProgram && ok == loadOk
    {
      hasProgram := true;
      ok := loadOk;
    }

    method Line(start: Vec3, end: Vec3, color: Vec3)
      requires Valid()
      modifies this
      ensures Valid() && hasProgram == old(hasProgram)
      ensures segments == old(segments) + [Segment(start, end, color)]
      ensures linePositionVec == old(linePositionVec) + [start, end]
      ensures lineColorVec == old(lineColorVec) + [color, color]
    {
      AppendSegment(segments, Segment(start, end, color));
      linePositionVec := linePositionVec + [start];
      linePositionVec := linePositionVec + [end];
      lineColorVec := lineColorVec + [color];
      lineColorVec := lineColorVec + [color];
      segments := segments + [Segment(start, end, color)];
    }

    /** `normalize` stands for `glm::normalize`, whose square root is not modelled. */
    method Transform(m: Mat4, axisLen: real, normalize: Vec3 -> Vec3)
      requires Valid()
      modifies this
      ensures Valid() && hasProgram == old(hasProgram)
      ensures segments == old(segments) + AxisSegments(m, axisLen, normalize)
      ensures |linePositionVec| == |old(linePositionVec)| + 6
    {
      var x := Scaled(axisLen, normalize(Truncate(m.c0)));
      var y := Scaled(axisLen, normalize(Truncate(m.c1)));
      var z := Scaled(axisLen, normalize(Truncate(m.c2)));
      var p := Truncate(m.c3);
      Line(p, p.Add(x), Red);
      Line(p, p.Add(y), Green);
      Line(p, p.Add(z), Blue);
    }

    /** `Render`: the number of vertices `glDrawArrays` is asked to draw, two per queued line. */
    method Render() returns (vertexCount: int)
      requires Valid() && hasProgram
      ensures vertexCount == |linePositionVec| == |lineColorVec| == 2 * |segments|
    {
      FlatLists(segments);
      vertexCount := |linePositionVec|;
    }

    method EndFrame()
      requires Valid()
      modifies this`linePositionVec, this`lineColorVec, this`segments
      ensures Valid() && segments == [] && linePositionVec == [] && lineColorVec == []
    {
      linePositionVec := [];
      lineColorVec := [];
      segments := [];
    }
  }
}
