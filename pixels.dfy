// What the two software renderers share: pixels packed as 0x00RRGGBB in a 32-bit word, and
// a buffer of `width * height` words addressed by row and column.
module Pixels {
  import opened Common

  datatype Rgb = Rgb(r: int, g: int, b: int)

  predicate IsChannel(c: int)
  {
    0 <= c < 0x100
  }

  /**
   * `(uint32_t)((r << 16) + (g << 8) + (b << 0))`: the shifts as multiplications, the
   * conversion to `uint32_t` as reduction modulo 2^32.
   */
  function Pack(c: Rgb): (p: int)
    ensures 0 <= p < TwoTo32
  {
    (c.r * 0x10000 + c.g * 0x100 + c.b) % TwoTo32
  }

  /** With channels in 0..255 each channel can be read back from the packed word. */
  lemma PackRoundTrip(c: Rgb)
    requires IsChannel(c.r) && IsChannel(c.g) && IsChannel(c.b)
    ensures Pack(c) == c.r * 0x10000 + c.g * 0x100 + c.b
    ensures Pack(c) / 0x10000 == c.r
    ensures (Pack(c) / 0x100) % 0x100 == c.g
    ensures Pack(c) % 0x100 == c.b
  {
    var p := c.r * 0x10000 + c.g * 0x100 + c.b;
    assert 0 <= p < TwoTo32;
    assert p / 0x100 == c.r * 0x100 + c.g;
  }

  /** Distinct colours with channels in 0..255 pack to distinct words. */
  lemma PackInjective(c1: Rgb, c2: Rgb)
    requires IsChannel(c1.r) && IsChannel(c1.g) && IsChannel(c1.b)
    requires IsChannel(c2.r) && IsChannel(c2.g) && IsChannel(c2.b)
    requires Pack(c1) == Pack(c2)
    ensures c1 == c2
  {
    PackRoundTrip(c1);
    PackRoundTrip(c2);
  }

  /** The pixel lies in a `w` by `h` frame. */
  predicate InFrame(w: int, h: int, x: int, y: int)
  {
    0 <= x < w && 0 <= y < h
  }

  /** `a <= b` scales: `a * w <= b * w` for a non-negative width. */
  lemma {:induction false} MulLeq(a: int, b: int, w: nat)
    requires a <= b
    ensures a * w <= b * w
    decreases w
  {
    if w != 0 {
      MulLeq(a, b, w - 1);
      assert a * w == a * (w - 1) + a;
      assert b * w == b * (w - 1) + b;
    }
  }

  /** The word of pixel (x, y) in a row-major buffer, row `y` starting at `y * w`. */
  function RowMajor(w: int, h: int, x: int, y: int): (i: int)
    requires InFrame(w, h, x, y)
    ensures 0 <= i < w * h
  {
    MulLeq(y + 1, h, w);
    MulLeq(0, y, w);
    assert (y + 1) * w == y * w + w;
    y * w + x
  }

  /** Distinct pixels of the frame occupy distinct words. */
  lemma RowMajorInjective(w: int, h: int, x1: int, y1: int, x2: int, y2: int)
    requires InFrame(w, h, x1, y1) && InFrame(w, h, x2, y2)
    requires RowMajor(w, h, x1, y1) == RowMajor(w, h, x2, y2)
    ensures x1 == x2 && y1 == y2
  {
    if y1 < y2 {
      MulLeq(y1 + 1, y2, w);
      assert false;
    } else if y2 < y1 {
      MulLeq(y2 + 1, y1, w);
      assert false;
    }
  }

  /** Every word of the buffer belongs to some pixel. */
  lemma RowMajorOnto(w: int, h: int, i: int)
    requires 0 <= w && 0 <= h && 0 <= i < w * h
    ensures 0 < w && InFrame(w, h, i % w, i / w) && RowMajor(w, h, i % w, i / w) == i
  {
    if w == 0 {
      assert false;
    }
    var y := i / w;
    var x := i % w;
    assert i == y * w + x;
    if y >= h {
      MulLeq(h, y, w);
      assert false;
    }
  }
}
