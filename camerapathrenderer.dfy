// The camera path overlay: for each camera a wire frustum of eight lines, and a path of
// lines joining consecutive camera positions, each drawn through an identity index list.
// The lists built here are what the vertex array objects' buffers receive. The frustum
// corners (from `cosf`/`sinf` of the field of view and `XformPoint`) are an input, and the
// GL draw calls are modelled by the count each one is given.
module CameraPaths {
  import opened Common
  import opened VertexBuffers
  import opened Pixels

  /** The camera record read from the cameras file; only its pose and field of view are used here. */
  datatype Camera = Camera(mat: Mat4, fov: Vec2)

  /** A camera's five frustum points in world space: the apex and the four far corners. */
  datatype Frustum = Frustum(apex: Vec3, c1: Vec3, c2: Vec3, c3: Vec3, c4: Vec3)

  /** Corner `i` (1 to 4), going round the far rectangle. */
  function Corner(f: Frustum, i: int): Vec3
    requires 1 <= i <= 4
  {
    if i == 1 then f.c1 else if i == 2 then f.c2 else if i == 3 then f.c3 else f.c4
  }

  const NumFrustumLines: int := 8
  const FrustumColor: Vec4 := Vec4(0.0, 1.0, 0.0, 1.0)
  const PathColor: Vec4 := Vec4(0.0, 1.0, 1.0, 1.0)

  /** The sixteen positions pushed for one camera: apex to each corner, then round the rim. */
  function FrustumPositions(f: Frustum): (r: seq<Vec3>)
    ensures |r| == 2 * NumFrustumLines
  {
    [f.apex, f.c1, f.apex, f.c2, f.apex, f.c3, f.apex, f.c4,
     f.c1, f.c2, f.c2, f.c3, f.c3, f.c4, f.c4, f.c1]
  }

  /** Lines 0 to 3 join the apex to corners 1 to 4; lines 4 to 7 join each corner to the next, corner 4 back to corner 1. */
  lemma FrustumLines(f: Frustum)
    ensures forall k :: 0 <= k < 4 ==>
      FrustumPositions(f)[2 * k] == f.apex && FrustumPositions(f)[2 * k + 1] == Corner(f, k + 1)
    ensures forall k :: 4 <= k < 8 ==>
      FrustumPositions(f)[2 * k] == Corner(f, k - 3) && FrustumPositions(f)[2 * k + 1] == Corner(f, (k - 3) % 4 + 1)
  {
  }

  /** The frustum lists of `cameras`, one per camera. */
  function FrustumLists(cameras: seq<Camera>, frustum: Camera -> Frustum): (r: seq<seq<Vec3>>)
    ensures |r| == |cameras|
    ensures forall k :: 0 <= k < |r| ==> r[k] == FrustumPositions(frustum(cameras[k]))
  {
    if cameras == [] then []
    else FrustumLists(cameras[..|cameras| - 1], frustum) + [FrustumPositions(frustum(cameras[|cameras| - 1]))]
  }

  /** The position list of the cameras' frusta. */
  function CameraPositions(cameras: seq<Camera>, frustum: Camera -> Frustum): seq<Vec3>
  {
    Flatten(FrustumLists(cameras, frustum))
  }

  /** Camera `k`'s sixteen positions occupy entries `16k` to `16k + 15`. */
  lemma CameraPositionsLayout(cameras: seq<Camera>, frustum: Camera -> Frustum)
    ensures |CameraPositions(cameras, frustum)| == 16 * |cameras|
    ensures forall k, j :: 0 <= k < |cameras| && 0 <= j < 16 ==>
      CameraPositions(cameras, frustum)[16 * k + j] == FrustumPositions(frustum(cameras[k]))[j]
  {
    var lists := FrustumLists(cameras, frustum);
    FlattenLength(lists, 16);
    forall k, j | 0 <= k < |cameras| && 0 <= j < 16
      ensures CameraPositions(cameras, frustum)[16 * k + j] == FrustumPositions(frustum(cameras[k]))[j]
    {
      FlattenAt(lists, 16, k, j);
    }
  }

  /** One more camera appends its sixteen positions. */
  lemma CameraPositionsStep(cameras: seq<Camera>, frustum: Camera -> Frustum, i: nat)
    requires i < |cameras|
    ensures CameraPositions(cameras[..i + 1], frustum) ==
      CameraPositions(cameras[..i], frustum) + FrustumPositions(frustum(cameras[i]))
  {
    assert cameras[..i + 1][..i] == cameras[..i];
    var lists := FrustumLists(cameras[..i], frustum);
    var next := FrustumPositions(frustum(cameras[i]));
    assert FrustumLists(cameras[..i + 1], frustum) == lists + [next];
    assert (lists + [next])[..|lists|] == lists;
  }

  /** The camera's position: the translation column of its pose. */
  function Position(c: Camera): Vec3
  {
    Truncate(c.mat.c3)
  }

  /** The path segments joining consecutive cameras. */
  function Joins(cameras: seq<Camera>): seq<Vec3>
  {
    if |cameras| < 2 then []
    else Joins(cameras[..|cameras| - 1]) + [Position(cameras[|cameras| - 2]), Position(cameras[|cameras| - 1])]
  }

  /** The path has one line per consecutive pair, from camera `k` to camera `k + 1`. */
  lemma {:induction false} JoinsLayout(cameras: seq<Camera>)
    requires |cameras| >= 1
    ensures |Joins(cameras)| == 2 * (|cameras| - 1)
    ensures forall k :: 0 <= k < |cameras| - 1 ==>
      Joins(cameras)[2 * k] == Position(cameras[k]) && Joins(cameras)[2 * k + 1] == Position(cameras[k + 1])
  {
    if |cameras| >= 2 {
      JoinsLayout(cameras[..|cameras| - 1]);
    }
  }

  /** The path's position list: the joins for two or more cameras, otherwise one line between two zero points. */
  function PathPositions(cameras: seq<Camera>): seq<Vec3>
  {
    if |cameras| > 1 then Joins(cameras) else [Zero3, Zero3]
  }

  /** `uint32_t` arithmetic. */
  function U32(x: int): int
  {
    x % TwoTo32
  }

  /** `(uint32_t)cameraVec.size() * NUM_LINES * 2`, each product wrapping at 2^32. */
  function VertCount(numCameras: nat, numLines: nat): (n: int)
    ensures 0 <= n < TwoTo32
  {
    U32(U32(U32(numCameras) * numLines) * 2)
  }

  /** Below the 32-bit limit the vertex count is exactly two per line per camera. */
  lemma VertCountExact(numCameras: nat, numLines: nat)
    requires numCameras * numLines * 2 < TwoTo32
    ensures VertCount(numCameras, numLines) == numCameras * numLines * 2
  {
    var lines := numCameras * numLines;
    MulLeq(0, numCameras, numLines);
    if numLines == 0 {
      assert U32(numCameras) * numLines == 0;
    } else {
      MulLeq(1, numLines, numCameras);
      assert numCameras <= lines < TwoTo32;
      assert U32(numCameras) == numCameras;
      assert U32(lines) == lines;
    }
  }

  /** The identity index list `0, 1, ..., n - 1`. */
  predicate IsIdentity(indices: seq<int>, n: int)
  {
    |indices| == n && forall k :: 0 <= k < |indices| ==> indices[k] == k
  }

  /**
   * As written, `numPathVerts` counts two vertices per camera although the path has one line
   * fewer than there are cameras: for two or more cameras the index list names two positions
   * past the end of the position list.
   */
  lemma PathIndexOverrun(cameras: seq<Camera>, indices: seq<int>)
    requires |cameras| > 1 && 2 * |cameras| < TwoTo32
    requires IsIdentity(indices, VertCount(|cameras|, 1))
    ensures |indices| == |PathPositions(cameras)| + 2
    ensures indices[|indices| - 1] >= |PathPositions(cameras)| && indices[|indices| - 2] >= |PathPositions(cameras)|
  {
    VertCountExact(|cameras|, 1);
    JoinsLayout(cameras);
  }

  /** Two cameras give one path line, yet the as-written count asks for four vertices. */
  lemma PathIndexOverrunExample()
    ensures var cameras := [Camera(Translation(Zero3), Vec2(1.0, 1.0)), Camera(Translation(Zero3), Vec2(1.0, 1.0))];
      |PathPositions(cameras)| == 2 && VertCount(|cameras|, 1) == 4
  {
    var cameras := [Camera(Translation(Zero3), Vec2(1.0, 1.0)), Camera(Translation(Zero3), Vec2(1.0, 1.0))];
    assert cameras[..1] == [cameras[0]];
    assert |Joins(cameras[..1])| == 0;
  }

  /** The path index count that draws every path position once and no more. */
  function PathIndexCount(cameras: seq<Camera>): (count: int)
    ensures count == |PathPositions(cameras)|
    ensures count == (if |cameras| > 1 then 2 * (|cameras| - 1) else 2)
  {
    if |cameras| > 1 then
      JoinsLayout(cameras);
      2 * (|cameras| - 1)
    else 2
  }

  /** With the corrected count every index of the identity list names a path position, and every position is named. */
  lemma PathIndicesInRange(cameras: seq<Camera>, indices: seq<int>)
    requires IsIdentity(indices, PathIndexCount(cameras))
    ensures forall k :: 0 <= k < |indices| ==> 0 <= indices[k] < |PathPositions(cameras)|
    ensures forall i :: 0 <= i < |PathPositions(cameras)| ==> i in indices
  {
    forall i | 0 <= i < |PathPositions(cameras)|
      ensures i in indices
    {
      assert indices[i] == i;
    }
  }

  /** The index loop of both builders: `0, 1, ..., n - 1`. */
  method IdentityIndices(n: int) returns (indexVec: seq<int>)
    ensures IsIdentity(indexVec, if n < 0 then 0 else n)
  {
    indexVec := [];
    for i := 0 to if n < 0 then 0 else n
      invariant IsIdentity(indexVec, i)
    {
      indexVec := indexVec + [i];
    }
  }

  /** The colour loop of one camera: `FRUSTUM_COLOR` twice per frustum line. */
  method PushFrustumColors(colVec: seq<Vec4>) returns (r: seq<Vec4>)
    ensures |r| == |colVec| + 2 * NumFrustumLines
    ensures forall k :: 0 <= k < |colVec| ==> r[k] == colVec[k]
    ensures forall k :: |colVec| <= k < |r| ==> r[k] == FrustumColor
  {
    r := colVec;
    for j := 0 to NumFrustumLines
      invariant |r| == |colVec| + 2 * j
      invariant forall k :: 0 <= k < |colVec| ==> r[k] == colVec[k]
      invariant forall k :: |colVec| <= k < |r| ==> r[k] == FrustumColor
    {
      r := r + [FrustumColor, FrustumColor];
    }
  }

  datatype Vao = CamerasVao | PathVao

  /** One `glDrawElements(GL_LINES, count, ...)` call. */
  datatype DrawCall = DrawCall(vao: Vao, count: int)

  class CameraPathRenderer {
    /** Whether `ddProg` points at a program, which `Init` creates before loading its shaders. */
    var hasProgram: bool
    var showCameras: bool
    var showPath: bool
    var numCameraVerts: int
    var cameraPositions: seq<Vec3>
    var cameraColors: seq<Vec4>
    var cameraIndices: seq<int>
    var numPathVerts: int
    var pathPositions: seq<Vec3>
    var pathColors: seq<Vec4>
    var pathIndices: seq<int>

    constructor()
      ensures !hasProgram && showCameras && showPath
      ensures cameraPositions == [] && pathPositions == []
    {
      hasProgram := false;
      showCameras := true;
      showPath := true;
      numCameraVerts := 0;
      cameraPositions := [];
      cameraColors := [];
      cameraIndices := [];
      numPathVerts := 0;
      pathPositions := [];
      pathColors := [];
      pathIndices := [];
    }

    /** `Init`: the program is created first; the geometry is built only when its shaders load (`loadOk`). */
    method Init(cameras: seq<Camera>, frustum: Camera -> Frustum, loadOk: bool) returns (ok: bool)
      modifies this
      ensures hasProgram && ok == loadOk
      ensures showCameras == old(showCameras) && showPath == old(showPath)
      ensures !ok ==> cameraPositions == old(cameraPositions) && pathPositions == old(pathPositions)
      ensures ok ==> cameraPositions == CameraPositions(cameras, frustum) && pathPositions == PathPositions(cameras)
    {
      hasProgram := true;
      if !loadOk {
        return false;
      }
      BuildCamerasVao(cameras, frustum);
      BuildPathVao(cameras);
      return true;
    }

    /** The frustum lines of every camera, sixteen positions and colours each, and the identity index list. */
    method BuildCamerasVao(cameras: seq<Camera>, frustum: Camera -> Frustum)
      modifies this`numCameraVerts, this`cameraPositions, this`cameraColors, this`cameraIndices
      ensures numCameraVerts == VertCount(|cameras|, NumFrustumLines)
      ensures cameraPositions == CameraPositions(cameras, frustum)
      ensures |cameraColors| == 16 * |cameras| && forall k :: 0 <= k < |cameraColors| ==> cameraColors[k] == FrustumColor
      ensures IsIdentity(cameraIndices, numCameraVerts)
    {
      var count := VertCount(|cameras|, NumFrustumLines);
      var posVec: seq<Vec3> := [];
      var colVec: seq<Vec4> := [];
      for i := 0 to |cameras|
        invariant posVec == CameraPositions(cameras[..i], frustum)
        invariant |colVec| == 16 * i && forall k :: 0 <= k < |colVec| ==> colVec[k] == FrustumColor
      {
        CameraPositionsStep(cameras, frustum, i);
        posVec := posVec + FrustumPositions(frustum(cameras[i]));
        colVec := PushFrustumColors(colVec);
      }
      assert cameras[..|cameras|] == cameras;
      var indexVec := IdentityIndices(count);
      numCameraVerts := count;
      cameraPositions := posVec;
      cameraColors := colVec;
      cameraIndices := indexVec;
    }

    /** The path lines between consecutive cameras (or one line of zero points), and the identity index list. */
    method BuildPathVao(cameras: seq<Camera>)
      modifies this`numPathVerts, this`pathPositions, this`pathColors, this`pathIndices
      ensures numPathVerts == VertCount(|cameras|, 1)
      ensures pathPositions == PathPositions(cameras)
      ensures |pathColors| == |pathPositions| && forall k :: 0 <= k < |pathColors| ==> pathColors[k] == PathColor
      ensures IsIdentity(pathIndices, numPathVerts)
    {
      var count := VertCount(|cameras|, 1);
      var posVec: seq<Vec3> := [];
      var colVec: seq<Vec4> := [];
      if |cameras| > 1 {
        var prev := cameras[0];
        for i := 1 to |cameras|
          invariant posVec == Joins(cameras[..i]) && prev == cameras[i - 1]
          invariant |colVec| == |posVec| && forall k :: 0 <= k < |colVec| ==> colVec[k] == PathColor
        {
          var curr := cameras[i];
          assert cameras[..i + 1][..i] == cameras[..i];
          posVec := posVec + [Position(prev), Position(curr)];
          colVec := colVec + [PathColor, PathColor];
          prev := curr;
        }
        assert cameras[..|cameras|] == cameras;
      } else {
        posVec := [Zero3, Zero3];
        colVec := [PathColor, PathColor];
      }
      var indexVec := IdentityIndices(count);
      numPathVerts := count;
      pathPositions := posVec;
      pathColors := colVec;
      pathIndices := indexVec;
    }

    /** `SetShowCameras`: shows or hides the frusta; nothing else changes. */
    method SetShowCameras(showCamerasIn: bool)
      modifies this`showCameras
      ensures showCameras == showCamerasIn
    {
      showCameras := showCamerasIn;
    }

    /** `SetShowPath`: shows or hides the path; nothing else changes. */
    method SetShowPath(showPathIn: bool)
      modifies this`showPath
      ensures showPath == showPathIn
    {
      showPath := showPathIn;
    }

    /** `Render`: nothing when both overlays are hidden; otherwise the frusta and then the path, each if shown. */
    method Render() returns (draws: seq<DrawCall>)
      requires showCameras || showPath ==> hasProgram
      ensures draws == [] <==> !showCameras && !showPath
      ensures DrawCall(CamerasVao, numCameraVerts) in draws <==> showCameras
      ensures DrawCall(PathVao, numPathVerts) in draws <==> showPath
      ensures |draws| <= 2 && (|draws| == 2 ==> draws[0].vao == CamerasVao && draws[1].vao == PathVao)
    {
      draws := [];
      if !showCameras && !showPath {
        return;
      }
      if showCameras {
        draws := draws + [DrawCall(CamerasVao, numCameraVerts)];
      }
      if showPath {
        draws := draws + [DrawCall(PathVao, numPathVerts)];
      }
    }
  }
}
