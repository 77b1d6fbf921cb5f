// The CPU renderer's pixel buffer: `SetPixel` with its clipping and vertical flip, the
// 2x2 `SetThickPixel`, `ClearPixels`, and `Resize` with the resize-on-change test of
// `Render`. The SDL texture is not modelled; a null `rawPixels` is an empty buffer.
module SoftwareRendering {
  import opened Common
  import opened Pixels

  /** The word of pixel (x, y): row 0 of the picture is stored last, so the image is flipped vertically. */
  function FlippedIndex(w: int, h: int, x: int, y: int): (i: int)
    requires InFrame(w, h, x, y)
    ensures 0 <= i < w * h
  {
    RowMajor(w, h, x, h - 1 - y)
  }

  /** Distinct pixels of the frame occupy distinct words. */
  lemma FlippedIndexInjective(w: int, h: int, x1: int, y1: int, x2: int, y2: int)
    requires InFrame(w, h, x1, y1) && InFrame(w, h, x2, y2)
    requires FlippedIndex(w, h, x1, y1) == FlippedIndex(w, h, x2, y2)
    ensures x1 == x2 && y1 == y2
  {
    RowMajorInjective(w, h, x1, h - 1 - y1, x2, h - 1 - y2);
  }

  /** The buffer after writing `v` at pixel (x, y): a pixel outside the frame is dropped. */
  function Painted(pixels: seq<int>, w: int, h: int, x: int, y: int, v: int): (r: seq<int>)
    requires |pixels| == w * h
    ensures |r| == |pixels|
  {
    if InFrame(w, h, x, y) then pixels[FlippedIndex(w, h, x, y) := v] else pixels
  }

  /** Painting changes the painted pixel, if it is in the frame, and no other pixel. */
  lemma PaintedPixels(pixels: seq<int>, w: int, h: int, x: int, y: int, v: int)
    requires |pixels| == w * h
    ensures forall px, py :: InFrame(w, h, px, py) ==>
      Painted(pixels, w, h, x, y, v)[FlippedIndex(w, h, px, py)] ==
        (if px == x && py == y then v else pixels[FlippedIndex(w, h, px, py)])
    ensures !InFrame(w, h, x, y) ==> Painted(pixels, w, h, x, y, v) == pixels
    ensures forall i :: 0 <= i < |pixels| && (!InFrame(w, h, x, y) || i != FlippedIndex(w, h, x, y)) ==>
      Painted(pixels, w, h, x, y, v)[i] == pixels[i]
  {
    forall px, py | InFrame(w, h, px, py) && InFrame(w, h, x, y) && (px != x || py != y)
      ensures FlippedIndex(w, h, px, py) != FlippedIndex(w, h, x, y)
    {
      if FlippedIndex(w, h, px, py) == FlippedIndex(w, h, x, y) {
        FlippedIndexInjective(w, h, px, py, x, y);
      }
    }
  }

  /** The four writes of `SetThickPixel`, in its order. */
  function Thick(pixels: seq<int>, w: int, h: int, x: int, y: int, v: int): (r: seq<int>)
    requires |pixels| == w * h
    ensures |r| == |pixels|
  {
    var p1 := Painted(pixels, w, h, x, y, v);
    var p2 := Painted(p1, w, h, x + 1, y, v);
    var p3 := Painted(p2, w, h, x + 1, y + 1, v);
    Painted(p3, w, h, x, y + 1, v)
  }

  /** `SetThickPixel` paints the 2x2 block from (x, y) to (x + 1, y + 1), each pixel clipped on its own. */
  lemma ThickBlock(pixels: seq<int>, w: int, h: int, x: int, y: int, v: int)
    requires |pixels| == w * h
    ensures forall px, py :: InFrame(w, h, px, py) ==>
      Thick(pixels, w, h, x, y, v)[FlippedIndex(w, h, px, py)] ==
        (if x <= px <= x + 1 && y <= py <= y + 1 then v else pixels[FlippedIndex(w, h, px, py)])
  {
    var p1 := Painted(pixels, w, h, x, y, v);
    var p2 := Painted(p1, w, h, x + 1, y, v);
    var p3 := Painted(p2, w, h, x + 1, y + 1, v);
    PaintedPixels(pixels, w, h, x, y, v);
    PaintedPixels(p1, w, h, x + 1, y, v);
    PaintedPixels(p2, w, h, x + 1, y + 1, v);
    PaintedPixels(p3, w, h, x, y + 1, v);
  }

  class SoftwareRenderer {
    var width: int
    var height: int
    var rawPixels: array<int>

    /** The buffer holds one word per pixel. */
    ghost predicate Valid()
      reads this
    {
      0 <= width && 0 <= height && rawPixels.Length == width * height
    }

    constructor()
      ensures Valid()
      ensures width == 0 && height == 0 && rawPixels.Length == 0
    {
      width := 0;
      height := 0;
      rawPixels := new int[0];
    }

    /** Writes colour (r, g, b) at (x, y) when the pixel is in the frame; otherwise does nothing. */
    method SetPixel(x: int, y: int, r: int, g: int, b: int)
      requires Valid()
      modifies rawPixels
      ensures rawPixels[..] == Painted(old(rawPixels[..]), width, height, x, y, Pack(Rgb(r, g, b)))
    {
      if 0 <= x < width && 0 <= y < height {
        rawPixels[FlippedIndex(width, height, x, y)] := Pack(Rgb(r, g, b));
      }
    }

    /** Writes (x, y), (x + 1, y), (x + 1, y + 1) and (x, y + 1), in that order. */
    method SetThickPixel(x: int, y: int, r: int, g: int, b: int)
      requires Valid()
      modifies rawPixels
      ensures rawPixels[..] == Thick(old(rawPixels[..]), width, height, x, y, Pack(Rgb(r, g, b)))
    {
      SetPixel(x, y, r, g, b);
      SetPixel(x + 1, y, r, g, b);
      SetPixel(x + 1, y + 1, r, g, b);
      SetPixel(x, y + 1, r, g, b);
    }

    /** Zeroes every word of the buffer. */
    method ClearPixels()
      requires Valid()
      modifies rawPixels
      ensures forall i :: 0 <= i < rawPixels.Length ==> rawPixels[i] == 0
    {
      forall i | 0 <= i < rawPixels.Length {
        rawPixels[i] := 0;
      }
    }

    /** Replaces the buffer by a fresh one of `newWidth * newHeight` words, contents unspecified. */
    method Resize(newWidth: int, newHeight: int)
      requires 0 <= newWidth && 0 <= newHeight
      modifies this
      ensures Valid()
      ensures width == newWidth && height == newHeight && fresh(rawPixels)
    {
      MulLeq(0, newHeight, newWidth);
      rawPixels := new int[newWidth * newHeight];
      width := newWidth;
      height := newHeight;
    }

    /**
     * The resize step of `Render`: the buffer is replaced only when the viewport size (its
     * width and height, already converted to integers) differs from the current one.
     */
    method Render(viewportWidth: int, viewportHeight: int)
      requires Valid() && 0 <= viewportWidth && 0 <= viewportHeight
      modifies this
      ensures Valid()
      ensures width == viewportWidth && height == viewportHeight
      ensures old(width) == viewportWidth && old(height) == viewportHeight ==> rawPixels == old(rawPixels)
      ensures old(width) != viewportWidth || old(height) != viewportHeight ==> fresh(rawPixels)
    {
      if width != viewportWidth || height != viewportHeight {
        Resize(viewportWidth, viewportHeight);
      }
    }
  }
}
