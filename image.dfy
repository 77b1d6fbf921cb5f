// The PNG texture loader: the image is read bottom row first into one byte buffer, and
// images with an alpha channel get their colour channels pre-multiplied by alpha.
// Decoding the compressed PNG stream is done by libpng; the model receives what libpng
// hands back (signature bytes, bit depth, colour type, size and the decoded rows).
module ImageFile {
  import opened Common

  /** One channel value of a pixel. */
  newtype uint8 = x: int | 0 <= x < 0x100

  datatype PixelFormat = R | RA | RGB | RGBA

  /** Bytes per pixel of each format. */
  function PixelSize(f: PixelFormat): (n: nat)
    ensures 1 <= n <= 4
    ensures n % 2 == 0 <==> f.RA? || f.RGBA?
  {
    match f
    case R => 1
    case RA => 2
    case RGB => 3
    case RGBA => 4
  }

  /** libpng's colour type codes for grey, grey+alpha, RGB and RGBA. */
  const ColorTypeGray: int := 0
  const ColorTypeRGB: int := 2
  const ColorTypeGrayAlpha: int := 4
  const ColorTypeRGBA: int := 6

  /** The pixel format a colour type loads as; other colour types (palette) are refused. */
  function FormatOf(colorType: int): (r: Option<PixelFormat>)
    ensures r.Some? <==> colorType in {ColorTypeGray, ColorTypeRGB, ColorTypeGrayAlpha, ColorTypeRGBA}
    ensures r.Some? ==> (PixelSize(r.value) % 2 == 0 <==> colorType >= ColorTypeGrayAlpha)
  {
    if colorType == ColorTypeGray then Some(R)
    else if colorType == ColorTypeGrayAlpha then Some(RA)
    else if colorType == ColorTypeRGB then Some(RGB)
    else if colorType == ColorTypeRGBA then Some(RGBA)
    else None
  }

  /** The eight bytes every PNG file starts with. */
  const PngSignature: seq<uint8> := [0x89, 0x50, 0x4E, 0x47, 0x0D, 0x0A, 0x1A, 0x0A]

  /**
   * An opened PNG file as libpng reports it: the first (up to eight) bytes of the file,
   * then the image header fields and the decoded rows, top row first.
   */
  datatype PngFile = PngFile(header: seq<uint8>, bitDepth: int, colorType: int,
                             width: nat, height: nat, rows: seq<seq<uint8>>)

  /** Bytes in one row of `width` pixels. */
  function RowSize(width: nat, f: PixelFormat): nat
  {
    width * PixelSize(f)
  }

  /** Every row holds at least `rowSize` bytes. */
  ghost predicate RowsHold(rows: seq<seq<uint8>>, rowSize: nat)
  {
    forall k :: 0 <= k < |rows| ==> rowSize <= |rows[k]|
  }

  /** What libpng guarantees about the rows of an 8-bit image of a supported colour type. */
  ghost predicate RowsFit(p: PngFile)
  {
    p.bitDepth == 8 && FormatOf(p.colorType).Some? ==>
      |p.rows| == p.height && RowsHold(p.rows, RowSize(p.width, FormatOf(p.colorType).value))
  }

  /** The file is accepted: a PNG signature, 8 bits per channel and a supported colour type. */
  predicate Accepted(file: Option<PngFile>)
  {
    file.Some? && file.value.header == PngSignature && file.value.bitDepth == 8
    && FormatOf(file.value.colorType).Some?
  }

  /** The first `i` rows of the buffer: the last `i` rows of the file, last one first. */
  function BottomUp(rows: seq<seq<uint8>>, rowSize: nat, i: nat): seq<uint8>
    requires i <= |rows| && RowsHold(rows, rowSize)
  {
    if i == 0 then [] else BottomUp(rows, rowSize, i - 1) + rows[|rows| - i][..rowSize]
  }

  lemma MulLe(a: nat, b: nat, c: nat)
    requires a <= b
    ensures a * c <= b * c
  {
  }

  /** Copying `i` rows fills `i` row sizes of the buffer. */
  lemma {:induction false} BottomUpLength(rows: seq<seq<uint8>>, rowSize: nat, i: nat)
    requires i <= |rows| && RowsHold(rows, rowSize)
    ensures |BottomUp(rows, rowSize, i)| == i * rowSize
  {
    if i != 0 {
      BottomUpLength(rows, rowSize, i - 1);
      assert (i - 1) * rowSize + rowSize == i * rowSize;
    }
  }

  /** The image is stored flipped: row `r` of the buffer is row `|rows| - 1 - r` of the file. */
  lemma {:induction false} BottomUpRow(rows: seq<seq<uint8>>, rowSize: nat, i: nat, r: nat, k: nat)
    requires i <= |rows| && RowsHold(rows, rowSize)
    requires r < i && k < rowSize
    ensures r * rowSize + k < |BottomUp(rows, rowSize, i)|
    ensures BottomUp(rows, rowSize, i)[r * rowSize + k] == rows[|rows| - 1 - r][k]
  {
    BottomUpLength(rows, rowSize, i - 1);
    BottomUpLength(rows, rowSize, i);
    var prev := BottomUp(rows, rowSize, i - 1);
    if r == i - 1 {
      assert r * rowSize == |prev|;
    } else {
      BottomUpRow(rows, rowSize, i - 1, r, k);
      MulLe(r + 1, i - 1, rowSize);
      assert r * rowSize + k < |prev|;
    }
  }

  // ---------------------------------------------------------------------------------
  // Pre-multiplied alpha.

  /** `c * a`, written as a sum of `a` copies of `c`. */
  function Product(c: nat, a: nat): nat
  {
    if a == 0 then 0 else Product(c, a - 1) + c
  }

  lemma {:induction false} ProductBound(c: nat, a: nat)
    requires a <= 255
    ensures Product(c, a) <= 255 * c
  {
    ProductIsProduct(c, a);
    MulLe(a, 255, c);
  }

  lemma {:induction false} ProductIsProduct(c: nat, a: nat)
    ensures Product(c, a) == c * a
  {
    if a != 0 {
      ProductIsProduct(c, a - 1);
    }
  }

  /** A colour channel scaled by alpha, both read as fractions of 255, rounded down. */
  function Premul(c: uint8, a: uint8): uint8
  {
    ProductBound(c as int, a as int);
    (Product(c as int, a as int) / 255) as uint8
  }

  /** Scaling never brightens. */
  lemma PremulAtMost(c: uint8, a: uint8)
    ensures Premul(c, a) <= c
  {
    ProductBound(c as int, a as int);
  }

  /** Full alpha keeps the colour. */
  lemma PremulOpaque(c: uint8)
    ensures Premul(c, 255) == c
  {
    ProductIsProduct(c as int, 255);
  }

  /** Zero alpha clears the colour. */
  lemma PremulTransparent(c: uint8)
    ensures Premul(c, 0) == 0
  {
  }

  /** A grey+alpha pixel with alpha multiplied in. */
  function GrayAlphaPixel(v: uint8, alpha: uint8): seq<uint8>
  {
    [Premul(v, alpha), alpha]
  }

  /** An RGBA pixel with alpha multiplied in. */
  function RgbaPixel(r: uint8, g: uint8, b: uint8, alpha: uint8): seq<uint8>
  {
    [Premul(r, alpha), Premul(g, alpha), Premul(b, alpha), alpha]
  }

  /** The first `i` grey+alpha pixels of `d` with alpha multiplied in. */
  function GrayAlphaPixels(d: seq<uint8>, i: nat): (r: seq<uint8>)
    requires 2 * i <= |d|
    ensures |r| == 2 * i
  {
    if i == 0 then []
    else
      var at := 2 * (i - 1);
      GrayAlphaPixels(d, i - 1) + GrayAlphaPixel(d[at], d[at + 1])
  }

  /** The first `i` RGBA pixels of `d` with alpha multiplied in. */
  function RgbaPixels(d: seq<uint8>, i: nat): (r: seq<uint8>)
    requires 4 * i <= |d|
    ensures |r| == 4 * i
  {
    if i == 0 then []
    else
      var at := 4 * (i - 1);
      RgbaPixels(d, i - 1) + RgbaPixel(d[at], d[at + 1], d[at + 2], d[at + 3])
  }

  /** The buffer after multiplying alpha into the colour channels of its first `n` pixels. */
  function MultipliedAlpha(f: PixelFormat, d: seq<uint8>, n: nat): (r: seq<uint8>)
    requires n * PixelSize(f) <= |d|
    ensures |r| == |d|
  {
    match f
    case RA => GrayAlphaPixels(d, n) + d[2 * n..]
    case RGBA => RgbaPixels(d, n) + d[4 * n..]
    case _ => d
  }

  /** Byte `2p` and `2p + 1` of the multiplied grey+alpha pixels. */
  lemma {:induction false} GrayAlphaPixelsAt(d: seq<uint8>, i: nat, p: nat)
    requires 2 * i <= |d| && p < i
    ensures GrayAlphaPixels(d, i)[2 * p] == Premul(d[2 * p], d[2 * p + 1])
    ensures GrayAlphaPixels(d, i)[2 * p + 1] == d[2 * p + 1]
  {
    if p < i - 1 {
      GrayAlphaPixelsAt(d, i - 1, p);
    }
  }

  /** Colour byte `c` and the alpha byte of pixel `p` of the multiplied RGBA pixels. */
  lemma {:induction false} RgbaPixelsAt(d: seq<uint8>, i: nat, p: nat, c: nat)
    requires 4 * i <= |d| && p < i && c < 3
    ensures RgbaPixels(d, i)[4 * p + c] == Premul(d[4 * p + c], d[4 * p + 3])
    ensures RgbaPixels(d, i)[4 * p + 3] == d[4 * p + 3]
  {
    if p < i - 1 {
      RgbaPixelsAt(d, i - 1, p, c);
    }
  }

  /** Bytes after the first `n` pixels are kept. */
  lemma TailKept(f: PixelFormat, d: seq<uint8>, n: nat)
    requires n * PixelSize(f) <= |d|
    ensures forall j :: n * PixelSize(f) <= j < |d| ==> MultipliedAlpha(f, d, n)[j] == d[j]
  {
  }

  /** Formats without alpha are left alone. */
  lemma NoAlphaUnchanged(f: PixelFormat, d: seq<uint8>, n: nat)
    requires n * PixelSize(f) <= |d|
    requires f == R || f == RGB
    ensures MultipliedAlpha(f, d, n) == d
  {
  }

  /** A grey+alpha pixel keeps its alpha; its grey byte is scaled by alpha: cleared when
      transparent, kept when opaque, never brighter. */
  lemma GrayAlphaMultiplied(d: seq<uint8>, n: nat, p: nat)
    requires 2 * n <= |d| && p < n
    ensures MultipliedAlpha(RA, d, n)[2 * p + 1] == d[2 * p + 1]
    ensures MultipliedAlpha(RA, d, n)[2 * p] == Premul(d[2 * p], d[2 * p + 1])
    ensures d[2 * p + 1] == 0 ==> MultipliedAlpha(RA, d, n)[2 * p] == 0
    ensures d[2 * p + 1] == 255 ==> MultipliedAlpha(RA, d, n)[2 * p] == d[2 * p]
    ensures MultipliedAlpha(RA, d, n)[2 * p] <= d[2 * p]
  {
    GrayAlphaPixelsAt(d, n, p);
    PremulOpaque(d[2 * p]);
    PremulTransparent(d[2 * p]);
    PremulAtMost(d[2 * p], d[2 * p + 1]);
  }

  /** An RGBA pixel keeps its alpha; colour byte `c` is scaled by alpha: cleared when
      transparent, kept when opaque, never brighter. */
  lemma RgbaMultiplied(d: seq<uint8>, n: nat, p: nat, c: nat)
    requires 4 * n <= |d| && p < n && c < 3
    ensures MultipliedAlpha(RGBA, d, n)[4 * p + 3] == d[4 * p + 3]
    ensures MultipliedAlpha(RGBA, d, n)[4 * p + c] == Premul(d[4 * p + c], d[4 * p + 3])
    ensures d[4 * p + 3] == 0 ==> MultipliedAlpha(RGBA, d, n)[4 * p + c] == 0
    ensures d[4 * p + 3] == 255 ==> MultipliedAlpha(RGBA, d, n)[4 * p + c] == d[4 * p + c]
    ensures MultipliedAlpha(RGBA, d, n)[4 * p + c] <= d[4 * p + c]
  {
    RgbaPixelsAt(d, n, p, c);
    PremulOpaque(d[4 * p + c]);
    PremulTransparent(d[4 * p + c]);
    PremulAtMost(d[4 * p + c], d[4 * p + 3]);
  }

  lemma SizeAssoc(w: nat, h: nat, size: nat)
    ensures w * h * size == h * (w * size)
  {
  }

  /** The buffer an accepted file loads into: its rows bottom up, alpha multiplied in. */
  function Decoded(p: PngFile): (d: seq<uint8>)
    requires Accepted(Some(p)) && RowsFit(p)
    ensures |d| == p.width * p.height * PixelSize(FormatOf(p.colorType).value)
  {
    var f := FormatOf(p.colorType).value;
    var rowSize := RowSize(p.width, f);
    BottomUpLength(p.rows, rowSize, p.height);
    SizeAssoc(p.width, p.height, PixelSize(f));
    MultipliedAlpha(f, BottomUp(p.rows, rowSize, p.height), p.width * p.height)
  }

  /** Without alpha, row `r` of the loaded buffer is row `height - 1 - r` of the file. */
  lemma DecodedRow(p: PngFile, r: nat, k: nat)
    requires Accepted(Some(p)) && RowsFit(p)
    requires FormatOf(p.colorType) == Some(R) || FormatOf(p.colorType) == Some(RGB)
    requires r < p.height && k < RowSize(p.width, FormatOf(p.colorType).value)
    ensures r * RowSize(p.width, FormatOf(p.colorType).value) + k < |Decoded(p)|
    ensures Decoded(p)[r * RowSize(p.width, FormatOf(p.colorType).value) + k] == p.rows[p.height - 1 - r][k]
  {
    var f := FormatOf(p.colorType).value;
    var rowSize := RowSize(p.width, f);
    BottomUpRow(p.rows, rowSize, p.height, r, k);
    BottomUpLength(p.rows, rowSize, p.height);
    SizeAssoc(p.width, p.height, PixelSize(f));
    NoAlphaUnchanged(f, BottomUp(p.rows, rowSize, p.height), p.width * p.height);
  }

  // ---------------------------------------------------------------------------------
  // The image.

  class Image {
    var width: nat
    var height: nat
    var pixelFormat: PixelFormat
    var isSRGB: bool
    var data: array<uint8>

    /** The buffer holds `width * height` pixels of the current format. */
    ghost predicate Valid()
      reads this
    {
      data.Length == width * height * PixelSize(pixelFormat)
    }

    /** An empty, single-channel, linear image. */
    constructor()
      ensures Valid() && fresh(data)
      ensures width == 0 && height == 0 && pixelFormat == R && !isSRGB && data.Length == 0
    {
      width, height, pixelFormat, isSRGB := 0, 0, R, false;
      data := new uint8[0];
    }

    /** Multiplies alpha into the colour channels of every pixel, in place. */
    method MultiplyAlpha()
      requires width * height * PixelSize(pixelFormat) <= data.Length
      modifies data
      ensures data[..] == MultipliedAlpha(pixelFormat, old(data[..]), width * height)
    {
      var n := width * height;
      if pixelFormat == R || pixelFormat == RGB {
        NoAlphaUnchanged(pixelFormat, data[..], n);
      } else if pixelFormat == RA {
        MultiplyGrayAlpha(n);
      } else {
        MultiplyRgba(n);
      }
    }

    /** Multiplies alpha into the grey byte of the first `n` grey+alpha pixels. */
    method MultiplyGrayAlpha(n: nat)
      requires 2 * n <= data.Length
      modifies data
      ensures data[..] == MultipliedAlpha(RA, old(data[..]), n)
    {
      ghost var start := data[..];
      ghost var target := MultipliedAlpha(RA, start, n);
      var i := 0;
      while i < n
        invariant 0 <= i <= n
        invariant forall j :: 0 <= j < 2 * i ==> data[j] == target[j]
        invariant forall j :: 2 * i <= j < data.Length ==> data[j] == start[j]
      {
        GrayAlphaMultiplied(start, n, i);
        data[i * 2] := Premul(data[i * 2], data[i * 2 + 1]);
        i := i + 1;
      }
      TailKept(RA, start, n);
      assert data[..] == target;
    }

    /** Multiplies alpha into the three colour bytes of the first `n` RGBA pixels. */
    method MultiplyRgba(n: nat)
      requires 4 * n <= data.Length
      modifies data
      ensures data[..] == MultipliedAlpha(RGBA, old(data[..]), n)
    {
      ghost var start := data[..];
      ghost var target := MultipliedAlpha(RGBA, start, n);
      var i := 0;
      while i < n
        invariant 0 <= i <= n
        invariant forall j :: 0 <= j < 4 * i ==> data[j] == target[j]
        invariant forall j :: 4 * i <= j < data.Length ==> data[j] == start[j]
      {
        RgbaMultiplied(start, n, i, 0);
        RgbaMultiplied(start, n, i, 1);
        RgbaMultiplied(start, n, i, 2);
        var at := i * 4;
        var alpha := data[at + 3];
        data[at] := Premul(data[at], alpha);
        data[at + 1] := Premul(data[at + 1], alpha);
        data[at + 2] := Premul(data[at + 2], alpha);
        i := i + 1;
      }
      TailKept(RGBA, start, n);
      assert data[..] == target;
    }

    /**
     * Loads a PNG file. `file` is None when the file cannot be opened. On success the rows
     * are stored bottom row first and alpha is multiplied in; the image is marked sRGB
     * whenever decoding got as far as the bit depth check.
     */
    method Load(file: Option<PngFile>) returns (loaded: bool)
      requires file.Some? ==> RowsFit(file.value)
      modifies this
      ensures loaded <==> Accepted(file)
      ensures loaded ==> Valid() && fresh(data) && isSRGB
      ensures loaded ==> Holds(file.value)
      ensures !loaded ==> (width == old(width) && height == old(height)
        && pixelFormat == old(pixelFormat) && data == old(data))
      ensures !loaded ==> (isSRGB <==> (old(isSRGB)
        || (file.Some? && file.value.header == PngSignature && file.value.bitDepth != 8)))
    {
      if file.None? {
        return false;
      }
      var p := file.value;
      if p.header != PngSignature {
        return false;
      }
      loaded := false;
      if p.bitDepth == 8 {
        var f := FormatOf(p.colorType);
        if f.None? {
          return false;
        }
        StorePixels(p, f.value);
        loaded := true;
      }
      isSRGB := true;
    }

    /** The image holds the decoded file: its size, its format and its pixels. */
    ghost predicate Holds(p: PngFile)
      requires Accepted(Some(p)) && RowsFit(p)
      reads this, data
    {
      width == p.width && height == p.height && pixelFormat == FormatOf(p.colorType).value
      && data[..] == Decoded(p)
    }

    /** Takes the size and format of `p`, copies its rows bottom up and multiplies alpha. */
    method StorePixels(p: PngFile, f: PixelFormat)
      requires Accepted(Some(p)) && RowsFit(p) && FormatOf(p.colorType) == Some(f)
      modifies this
      ensures Valid() && fresh(data) && Holds(p) && isSRGB == old(isSRGB)
    {
      pixelFormat := f;
      width := p.width;
      height := p.height;
      var rowSize := width * PixelSize(pixelFormat);
      BottomUpLength(p.rows, rowSize, height);
      SizeAssoc(width, height, PixelSize(pixelFormat));
      data := new uint8[width * height * PixelSize(pixelFormat)];
      CopyRows(p.rows, rowSize);
      MultiplyAlpha();
    }

    /** Copies the rows into the buffer, last row first. */
    method CopyRows(rows: seq<seq<uint8>>, rowSize: nat)
      requires |rows| == height && RowsHold(rows, rowSize)
      requires data.Length == height * rowSize
      modifies data
      ensures data[..] == BottomUp(rows, rowSize, height)
    {
      var i := 0;
      while i < height
        invariant 0 <= i <= height
        invariant i * rowSize <= data.Length
        invariant data[..i * rowSize] == BottomUp(rows, rowSize, i)
      {
        var at := i * rowSize;
        BottomUpLength(rows, rowSize, i);
        MulLe(i + 1, height, rowSize);
        assert at + rowSize == (i + 1) * rowSize;
        var row := rows[height - 1 - i][..rowSize];
        ghost var before := data[..];
        StoreBytes(data, at, row);
        SplicePrefix(before, at, row);
        assert before[..at] == BottomUp(rows, rowSize, i);
        i := i + 1;
      }
      assert data[..] == data[..height * rowSize];
    }
  }
}
