// The older debug line drawer, whose program and line lists are file-level statics; here
// they are the fields of one `DebugDraw` object. Its lines are the segments of the debug
// renderer, and it adds `DebugDraw_Shutdown`, which releases the program only.
module DebugDrawing {
  import opened Common
  import opened Util
  import opened DebugRendering

  class DebugDraw {
    /** Whether the static `ddProg` points at a program. */
    var hasProgram: bool
    var linePositionVec: seq<Vec3>
    var lineColorVec: seq<Vec3>
    /** The lines queued since the last `DebugDraw_Clear`. */
    ghost var segments: seq<Segment>

    ghost predicate Valid()
      reads this
    {
      linePositionVec == Positions(segments) && lineColorVec == Colors(segments)
    }

    /** The statics before any call: no program and empty lists. */
    constructor()
      ensures Valid() && segments == [] && !hasProgram
    {
      hasProgram := false;
      linePositionVec := [];
      lineColorVec := [];
      segments := [];
    }

    /** `DebugDraw_Init`: the program is created whether or not its shaders load; `loadOk` is whether they do. */
    method Init(loadOk: bool) returns (ok: bool)
      modifies this`hasProgram
      ensures hasProgram && ok == loadOk
    {
      hasProgram := true;
      ok := loadOk;
    }

    /** `DebugDraw_Shutdown`: releases the program and keeps the queued lines. */
    method Shutdown()
      modifies this`hasProgram
      ensures !hasProgram
    {
      hasProgram := false;
    }

    /** `DebugDraw_Line`: two positions and two colours. */
    method Line(start: Vec3, end: Vec3, color: Vec3)
      requires Valid()
      modifies this`linePositionVec, this`lineColorVec, this`segments
      ensures Valid()
      ensures segments == old(segments) + [Segment(start, end, color)]
      ensures linePositionVec == old(linePositionVec) + [start, end]
      ensures lineColorVec == old(lineColorVec) + [color, color]
    {
      AppendSegment(segments, Segment(start, end, color));
      linePositionVec := linePositionVec + [start];
      linePositionVec := linePositionVec + [end];
      lineColorVec := lineColorVec + [color];
      lineColorVec := lineColorVec + [color];
      segments := segments + [Segment(start, end, color)];
    }

    /** `DebugDraw_Transform`: the three axes of `m`; `normalize` stands for `glm::normalize`. */
    method Transform(m: Mat4, axisLen: real, normalize: Vec3 -> Vec3)
      requires Valid()
      modifies this`linePositionVec, this`lineColorVec, this`segments
      ensures Valid()
      ensures segments == old(segments) + AxisSegments(m, axisLen, normalize)
      ensures |linePositionVec| == |old(linePositionVec)| + 6
    {
      var x := Scaled(axisLen, normalize(Truncate(m.c0)));
      var y := Scaled(axisLen, normalize(Truncate(m.c1)));
      var z := Scaled(axisLen, normalize(Truncate(m.c2)));
      var p := Truncate(m.c3);
      Line(p, p.Add(x), Red);
      Line(p, p.Add(y), Green);
      Line(p, p.Add(z), Blue);
    }

    /** `DebugDraw_Render`: the number of vertices drawn, two per queued line. */
    method Render() returns (vertexCount: int)
      requires Valid() && hasProgram
      ensures vertexCount == |linePositionVec| == |lineColorVec| == 2 * |segments|
    {
      FlatLists(segments);
      vertexCount := |linePositionVec|;
    }

    /** `DebugDraw_Clear`. */
    method Clear()
      requires Valid()
      modifies this`linePositionVec, this`lineColorVec, this`segments
      ensures Valid() && segments == [] && linePositionVec == [] && lineColorVec == []
    {
      linePositionVec := [];
      lineColorVec := [];
      segments := [];
    }
  }
}
