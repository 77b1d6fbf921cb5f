// The placeholder CPU splat renderer: its file-level `SetPixel` (row-major, no flip), and
// `Render`, which reallocates the buffer when the viewport changes and then fills the
// frame with 10x10 blocks of one colour each. The colours come from `rand()`; here they
// are an input, `colour`, giving the colour of the block that starts at (x, y). The SDL
// texture upload is not modelled; a null `rawPixels` is an empty buffer.
module SoftwareSplatRendering {
  import opened Common
  import opened Pixels

  /** PIXEL_STEP: the side of the square blocks. */
  const PixelStep: int := 10

  /** The first column (or row) of the block holding column (or row) `p`. */
  function BlockStart(p: int): int
  {
    p - p % PixelStep
  }

  /** Every position of the block that starts at the multiple of 10 `p0` has `p0` as its block start. */
  lemma BlockStartWithin(p0: int, p: int)
    requires p0 % PixelStep == 0 && p0 <= p < p0 + PixelStep
    ensures BlockStart(p) == p0
  {
    var q := p0 / PixelStep;
    assert p == q * PixelStep + (p - p0);
  }

  /** `(int)` of a non-negative `float`: it truncates, which for these values is the floor. */
  function Size(v: real): (n: int)
    requires 0.0 <= v
    ensures 0 <= n
  {
    v.Floor
  }

  /** The buffer after writing `v` at pixel (x, y): a pixel outside the frame is dropped. */
  function Painted(pixels: seq<int>, w: int, h: int, x: int, y: int, v: int): (r: seq<int>)
    requires |pixels| == w * h
    ensures |r| == |pixels|
  {
    if InFrame(w, h, x, y) then pixels[RowMajor(w, h, x, y) := v] else pixels
  }

  /** Painting changes the painted pixel, if it is in the frame, and no other word of the buffer. */
  lemma PaintedPixels(pixels: seq<int>, w: int, h: int, x: int, y: int, v: int)
    requires |pixels| == w * h
    ensures forall px, py :: InFrame(w, h, px, py) ==>
      Painted(pixels, w, h, x, y, v)[RowMajor(w, h, px, py)] ==
        (if px == x && py == y then v else pixels[RowMajor(w, h, px, py)])
    ensures forall i :: 0 <= i < |pixels| && (!InFrame(w, h, x, y) || i != RowMajor(w, h, x, y)) ==>
      Painted(pixels, w, h, x, y, v)[i] == pixels[i]
  {
    forall px, py | InFrame(w, h, px, py) && InFrame(w, h, x, y) && (px != x || py != y)
      ensures RowMajor(w, h, px, py) != RowMajor(w, h, x, y)
    {
      if RowMajor(w, h, px, py) == RowMajor(w, h, x, y) {
        RowMajorInjective(w, h, px, py, x, y);
      }
    }
  }

  /** The file-level `SetPixel`: writes (r, g, b) at (x, y) when the pixel is in the frame. */
  method SetPixel(rawPixels: array<int>, w: int, h: int, x: int, y: int, r: int, g: int, b: int)
    requires 0 <= w && 0 <= h && rawPixels.Length == w * h
    modifies rawPixels
    ensures rawPixels[..] == Painted(old(rawPixels[..]), w, h, x, y, Pack(Rgb(r, g, b)))
  {
    if 0 <= x < w && 0 <= y < h {
      rawPixels[RowMajor(w, h, x, y)] := Pack(Rgb(r, g, b));
    }
  }

  /** The two innermost loops: the 10x10 block from (x0, y0), clipped to the frame. */
  method FillBlock(rawPixels: array<int>, w: int, h: int, x0: int, y0: int, c: Rgb)
    requires 0 <= w && 0 <= h && rawPixels.Length == w * h
    modifies rawPixels
    ensures forall px, py :: InFrame(w, h, px, py) ==>
      rawPixels[RowMajor(w, h, px, py)] ==
        (if x0 <= px < x0 + PixelStep && y0 <= py < y0 + PixelStep then Pack(c) else old(rawPixels[RowMajor(w, h, px, py)]))
  {
    ghost var before := rawPixels[..];
    for xx := 0 to PixelStep
      invariant forall px, py :: InFrame(w, h, px, py) ==>
        rawPixels[RowMajor(w, h, px, py)] ==
          (if x0 <= px < x0 + xx && y0 <= py < y0 + PixelStep then Pack(c) else before[RowMajor(w, h, px, py)])
    {
      for yy := 0 to PixelStep
        invariant forall px, py :: InFrame(w, h, px, py) ==>
          rawPixels[RowMajor(w, h, px, py)] ==
            (if (x0 <= px < x0 + xx && y0 <= py < y0 + PixelStep) || (px == x0 + xx && y0 <= py < y0 + yy)
             then Pack(c) else before[RowMajor(w, h, px, py)])
      {
        ghost var prev := rawPixels[..];
        SetPixel(rawPixels, w, h, x0 + xx, y0 + yy, c.r, c.g, c.b);
        PaintedPixels(prev, w, h, x0 + xx, y0 + yy, Pack(c));
      }
    }
  }

  /** One pass of the column loop: the blocks of the band of rows starting at `y0`. */
  method FillRow(rawPixels: array<int>, w: int, h: int, y0: int, colour: (int, int) -> Rgb)
    requires 0 <= w && 0 <= h && rawPixels.Length == w * h
    requires y0 % PixelStep == 0
    modifies rawPixels
    ensures forall px, py :: InFrame(w, h, px, py) ==>
      rawPixels[RowMajor(w, h, px, py)] ==
        (if y0 <= py < y0 + PixelStep then Pack(colour(BlockStart(px), y0)) else old(rawPixels[RowMajor(w, h, px, py)]))
  {
    ghost var before := rawPixels[..];
    var x0 := 0;
    while x0 < w
      invariant 0 <= x0 && x0 % PixelStep == 0
      invariant forall px, py :: InFrame(w, h, px, py) ==>
        rawPixels[RowMajor(w, h, px, py)] ==
          (if px < x0 && y0 <= py < y0 + PixelStep then Pack(colour(BlockStart(px), y0)) else before[RowMajor(w, h, px, py)])
    {
      FillBlock(rawPixels, w, h, x0, y0, colour(x0, y0));
      forall px | x0 <= px < x0 + PixelStep
        ensures BlockStart(px) == x0
      {
        BlockStartWithin(x0, px);
      }
      x0 := x0 + PixelStep;
    }
  }

  /** The fill loops of `Render`: every pixel of the frame takes the colour of the block holding it. */
  method FillBlocks(rawPixels: array<int>, w: int, h: int, colour: (int, int) -> Rgb)
    requires 0 <= w && 0 <= h && rawPixels.Length == w * h
    modifies rawPixels
    ensures forall px, py :: InFrame(w, h, px, py) ==>
      rawPixels[RowMajor(w, h, px, py)] == Pack(colour(BlockStart(px), BlockStart(py)))
  {
    var y0 := 0;
    while y0 < h
      invariant 0 <= y0 && y0 % PixelStep == 0
      invariant forall px, py :: InFrame(w, h, px, py) && py < y0 ==>
        rawPixels[RowMajor(w, h, px, py)] == Pack(colour(BlockStart(px), BlockStart(py)))
    {
      FillRow(rawPixels, w, h, y0, colour);
      forall py | y0 <= py < y0 + PixelStep
        ensures BlockStart(py) == y0
      {
        BlockStartWithin(y0, py);
      }
      y0 := y0 + PixelStep;
    }
  }

  class SoftwareSplatRenderer {
    var rawPixels: array<int>
    /** The viewport (x, y, width, height) the buffer was last sized for. */
    var prevViewport: Vec4

    /** The buffer holds one word per pixel of `prevViewport`. */
    ghost predicate Valid()
      reads this
    {
      0.0 <= prevViewport.z && 0.0 <= prevViewport.w &&
      rawPixels.Length == Size(prevViewport.z) * Size(prevViewport.w)
    }

    constructor()
      ensures Valid()
      ensures prevViewport == Vec4(0.0, 0.0, 0.0, 0.0) && rawPixels.Length == 0
    {
      prevViewport := Vec4(0.0, 0.0, 0.0, 0.0);
      rawPixels := new int[0];
    }

    /** Replaces the buffer by a fresh one sized for `newViewport` and records the viewport. */
    method Resize(newViewport: Vec4)
      requires 0.0 <= newViewport.z && 0.0 <= newViewport.w
      modifies this
      ensures Valid()
      ensures prevViewport == newViewport && fresh(rawPixels)
    {
      var newWidth := Size(newViewport.z);
      var newHeight := Size(newViewport.w);
      MulLeq(0, newHeight, newWidth);
      rawPixels := new int[newWidth * newHeight];
      prevViewport := newViewport;
    }

    /**
     * `Render`: resizes exactly when the viewport differs from the last one (its position
     * included), then fills the frame with blocks.
     */
    method Render(viewport: Vec4, colour: (int, int) -> Rgb)
      requires Valid() && 0.0 <= viewport.z && 0.0 <= viewport.w
      modifies this, rawPixels
      ensures Valid() && prevViewport == viewport
      ensures old(prevViewport) == viewport ==> rawPixels == old(rawPixels)
      ensures old(prevViewport) != viewport ==> fresh(rawPixels)
      ensures var w, h := Size(viewport.z), Size(viewport.w);
        forall px, py :: InFrame(w, h, px, py) ==>
          rawPixels[RowMajor(w, h, px, py)] == Pack(colour(BlockStart(px), BlockStart(py)))
    {
      if prevViewport != viewport {
        Resize(viewport);
      }
      var w := Size(viewport.z);
      var h := Size(viewport.w);
      FillBlocks(rawPixels, w, h, colour);
    }
  }
}
