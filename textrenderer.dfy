// The text renderer: a glyph table read from a font description, the layout of a string
// into two textured triangles per visible glyph, and the table of texts on screen, keyed
// by a counter shared by every renderer.
module TextRendering {
  import opened Common

  /** Columns per tab stop. */
  const TabSize: nat := 4

  datatype Glyph = Glyph(xyMin: Vec2, xyMax: Vec2, uvMin: Vec2, uvMax: Vec2, advance: Vec2)

  /** One entry of the font's glyph metrics: its `ascii_index` and its glyph. */
  datatype GlyphMetric = GlyphMetric(key: int, glyph: Glyph)

  datatype Text = Text(xform: Mat4, color: Vec4, posVec: seq<Vec2>, uvVec: seq<Vec2>, screenSpace: bool)

  /** The glyph table key of a character: the character as an unsigned byte. */
  function GlyphKey(ch: char): (k: int)
    ensures 0 <= k < 256
  {
    (ch as int) % 256
  }

  /** The range check on a glyph's index as written: both conditions at once. */
  predicate OutOfRange(key: int)
  {
    key < 0 && key > 255
  }

  /** No index is both negative and above 255, so the range check never skips a glyph. */
  lemma OutOfRangeNever(key: int)
    ensures !OutOfRange(key)
  {
  }

  function Add2(a: Vec2, b: Vec2): Vec2 { Vec2(a.x + b.x, a.y + b.y) }

  function Scale2(k: real, v: Vec2): Vec2 { Vec2(k * v.x, k * v.y) }

  /** The six corners of a glyph's two triangles, placed at `pen` and scaled by `lineHeight`. */
  function QuadPositions(pen: Vec2, lineHeight: real, g: Glyph): seq<Vec2>
  {
    [Add2(pen, Scale2(lineHeight, g.xyMin)),
     Add2(pen, Scale2(lineHeight, g.xyMax)),
     Add2(pen, Scale2(lineHeight, Vec2(g.xyMin.x, g.xyMax.y))),
     Add2(pen, Scale2(lineHeight, g.xyMin)),
     Add2(pen, Scale2(lineHeight, Vec2(g.xyMax.x, g.xyMin.y))),
     Add2(pen, Scale2(lineHeight, g.xyMax))]
  }

  /** The texture coordinates of the six corners. */
  function QuadUVs(g: Glyph): seq<Vec2>
  {
    [g.uvMin, g.uvMax, Vec2(g.uvMin.x, g.uvMax.y), g.uvMin, Vec2(g.uvMax.x, g.uvMin.y), g.uvMax]
  }

  /** The two triangles of a glyph share the diagonal from its lower-left to its upper-right corner. */
  lemma QuadSharesDiagonal(pen: Vec2, lineHeight: real, g: Glyph)
    ensures |QuadPositions(pen, lineHeight, g)| == |QuadUVs(g)| == 6
    ensures QuadPositions(pen, lineHeight, g)[0] == QuadPositions(pen, lineHeight, g)[3]
    ensures QuadPositions(pen, lineHeight, g)[1] == QuadPositions(pen, lineHeight, g)[5]
    ensures QuadUVs(g)[0] == QuadUVs(g)[3] == g.uvMin && QuadUVs(g)[1] == QuadUVs(g)[5] == g.uvMax
  {
  }

  /** The layout state: the pen, the row and column counters and the vertices so far. */
  datatype Layout = Layout(pen: Vec2, r: nat, c: nat, pos: seq<Vec2>, uv: seq<Vec2>)

  /** A character that is drawn: not a space, newline or tab, and present in the glyph table. */
  predicate Drawn(glyphs: map<int, Glyph>, ch: char)
  {
    ch != ' ' && ch != '\n' && ch != '\t' && GlyphKey(ch) in glyphs
  }

  /** Lays out one character. */
  function Step(glyphs: map<int, Glyph>, space: Glyph, lineHeight: real, st: Layout, ch: char): Layout
  {
    if ch == ' ' then
      st.(pen := Add2(st.pen, Scale2(lineHeight, space.advance)), c := st.c + 1)
    else if ch == '\n' then
      st.(pen := Scale2(lineHeight, Vec2(0.0, -((st.r + 1) as real))), r := st.r + 1)
    else if ch == '\t' then
      var numSpaces := TabSize - st.c % TabSize;
      st.(pen := Add2(st.pen, Scale2(lineHeight * numSpaces as real, space.advance)), c := st.c + numSpaces)
    else if GlyphKey(ch) !in glyphs then
      st
    else
      var g := glyphs[GlyphKey(ch)];
      st.(pos := st.pos + QuadPositions(st.pen, lineHeight, g), uv := st.uv + QuadUVs(g),
          pen := Add2(st.pen, Scale2(lineHeight, g.advance)), c := st.c + 1)
  }

  /** The layout after the first `k` characters of `s`. */
  function Laid(glyphs: map<int, Glyph>, space: Glyph, lineHeight: real, s: string, start: Layout, k: nat): Layout
    requires k <= |s|
  {
    if k == 0 then start else Step(glyphs, space, lineHeight, Laid(glyphs, space, lineHeight, s, start, k - 1), s[k - 1])
  }

  /** Number of drawn characters among the first `k` of `s`. */
  function DrawnCount(glyphs: map<int, Glyph>, s: string, k: nat): nat
    requires k <= |s|
  {
    if k == 0 then 0 else DrawnCount(glyphs, s, k - 1) + (if Drawn(glyphs, s[k - 1]) then 1 else 0)
  }

  /** Every drawn character adds six positions and six texture coordinates; nothing else adds any. */
  lemma {:induction false} LaidCounts(glyphs: map<int, Glyph>, space: Glyph, lineHeight: real, s: string,
                                      start: Layout, k: nat)
    requires k <= |s|
    ensures |Laid(glyphs, space, lineHeight, s, start, k).pos| == |start.pos| + 6 * DrawnCount(glyphs, s, k)
    ensures |Laid(glyphs, space, lineHeight, s, start, k).uv| == |start.uv| + 6 * DrawnCount(glyphs, s, k)
  {
    if k != 0 {
      LaidCounts(glyphs, space, lineHeight, s, start, k - 1);
    }
  }

  /** Vertices already laid out are never changed: the layout only appends. */
  lemma {:induction false} LaidExtends(glyphs: map<int, Glyph>, space: Glyph, lineHeight: real, s: string,
                                       start: Layout, k: nat)
    requires k <= |s|
    ensures start.pos <= Laid(glyphs, space, lineHeight, s, start, k).pos
    ensures start.uv <= Laid(glyphs, space, lineHeight, s, start, k).uv
  {
    if k != 0 {
      LaidExtends(glyphs, space, lineHeight, s, start, k - 1);
    }
  }

  /** A tab moves the column to the next multiple of the tab size, by one to four columns. */
  lemma TabAlignsColumn(glyphs: map<int, Glyph>, space: Glyph, lineHeight: real, st: Layout)
    ensures Step(glyphs, space, lineHeight, st, '\t').c % TabSize == 0
    ensures st.c < Step(glyphs, space, lineHeight, st, '\t').c <= st.c + TabSize
    ensures Step(glyphs, space, lineHeight, st, '\t').pos == st.pos
  {
  }

  /** A newline moves to the start of the next row but keeps the column counter. */
  lemma NewlineKeepsColumn(glyphs: map<int, Glyph>, space: Glyph, lineHeight: real, st: Layout)
    ensures Step(glyphs, space, lineHeight, st, '\n').r == st.r + 1
    ensures Step(glyphs, space, lineHeight, st, '\n').c == st.c
    ensures Step(glyphs, space, lineHeight, st, '\n').pen.x == 0.0
    ensures Step(glyphs, space, lineHeight, st, '\n').pos == st.pos
  {
  }

  /** A character with no glyph changes nothing, not even the pen or the column. */
  lemma UnknownIgnored(glyphs: map<int, Glyph>, space: Glyph, lineHeight: real, st: Layout, ch: char)
    requires ch != ' ' && ch != '\n' && ch != '\t' && !Drawn(glyphs, ch)
    ensures Step(glyphs, space, lineHeight, st, ch) == st
  {
  }

  /** The layout of a whole string from the origin, as a new text starts it. */
  function Built(glyphs: map<int, Glyph>, space: Glyph, lineHeight: real, s: string): Layout
  {
    Laid(glyphs, space, lineHeight, s, Layout(Vec2(0.0, 0.0), 0, 0, [], []), |s|)
  }

  /** The key counter shared by all renderers; the first key handed out is 1. */
  class TextKeys {
    var nextKey: nat

    constructor()
      ensures nextKey == 1
    {
      nextKey := 1;
    }
  }

  class TextRenderer {
    var glyphMap: map<int, Glyph>
    var spaceGlyph: Glyph
    var textureWidth: real
    var textMap: map<nat, Text>

    /** Every text on screen has a key below the next one to be handed out. */
    ghost predicate KeysBelow(keys: TextKeys)
      reads this, keys
    {
      1 <= keys.nextKey && forall k :: k in textMap ==> k < keys.nextKey
    }

    constructor()
      ensures glyphMap == map[] && textMap == map[]
    {
      glyphMap := map[];
      textMap := map[];
      spaceGlyph := Glyph(Vec2(0.0, 0.0), Vec2(0.0, 0.0), Vec2(0.0, 0.0), Vec2(0.0, 0.0), Vec2(0.0, 0.0));
      textureWidth := 0.0;
    }

    /**
     * The glyph part of `Init`: every metric is entered under its index as a byte, the
     * first entry for an index winning, and the space glyph is taken from the table
     * when it is there.
     */
    method LoadGlyphs(width: real, metrics: seq<GlyphMetric>)
      modifies this`glyphMap, this`spaceGlyph, this`textureWidth
      ensures textureWidth == width
      ensures glyphMap == InsertAll(old(glyphMap), metrics, |metrics|)
      ensures 32 in glyphMap ==> spaceGlyph == glyphMap[32]
      ensures 32 !in glyphMap ==> spaceGlyph == old(spaceGlyph)
    {
      var table := glyphMap;
      var i := 0;
      while i < |metrics|
        invariant 0 <= i <= |metrics|
        invariant table == InsertAll(glyphMap, metrics, i)
      {
        var key := metrics[i].key;
        if !OutOfRange(key) {
          table := MapInsert(table, key % 256, metrics[i].glyph);
        }
        i := i + 1;
      }
      glyphMap := table;
      textureWidth := width;
      if 32 in glyphMap {
        spaceGlyph := glyphMap[32];
      }
    }

    /** Lays out one character: the body of the layout loop. */
    method PlaceChar(lineHeight: real, pen: Vec2, r: nat, c: nat, pos: seq<Vec2>, uv: seq<Vec2>, ch: char)
      returns (pen': Vec2, r': nat, c': nat, pos': seq<Vec2>, uv': seq<Vec2>)
      ensures Layout(pen', r', c', pos', uv') == Step(glyphMap, spaceGlyph, lineHeight, Layout(pen, r, c, pos, uv), ch)
    {
      pen', r', c', pos', uv' := pen, r, c, pos, uv;
      if ch == ' ' {
        pen' := Add2(pen, Scale2(lineHeight, spaceGlyph.advance));
        c' := c + 1;
      } else if ch == '\n' {
        pen' := Scale2(lineHeight, Vec2(0.0, -((r + 1) as real)));
        r' := r + 1;
      } else if ch == '\t' {
        var numSpaces := TabSize - c % TabSize;
        pen' := Add2(pen, Scale2(lineHeight * numSpaces as real, spaceGlyph.advance));
        c' := c + numSpaces;
      } else if GlyphKey(ch) in glyphMap {
        var g := glyphMap[GlyphKey(ch)];
        pos' := pos + QuadPositions(pen, lineHeight, g);
        uv' := uv + QuadUVs(g);
        pen' := Add2(pen, Scale2(lineHeight, g.advance));
        c' := c + 1;
      }
    }

    /** Lays out `s` from `pen` onto the vertex lists of `text`; returns the text and the final pen. */
    method BuildText(text: Text, pen: Vec2, lineHeight: real, s: string) returns (out: Text, penOut: Vec2)
      ensures var st := Laid(glyphMap, spaceGlyph, lineHeight, s, Layout(pen, 0, 0, text.posVec, text.uvVec), |s|);
        out == text.(posVec := st.pos, uvVec := st.uv) && penOut == st.pen
    {
      ghost var start := Layout(pen, 0, 0, text.posVec, text.uvVec);
      var pos, uv := text.posVec, text.uvVec;
      penOut := pen;
      var r: nat, c: nat := 0, 0;
      var k := 0;
      while k < |s|
        invariant 0 <= k <= |s|
        invariant Layout(penOut, r, c, pos, uv) == Laid(glyphMap, spaceGlyph, lineHeight, s, start, k)
      {
        penOut, r, c, pos, uv := PlaceChar(lineHeight, penOut, r, c, pos, uv, s[k]);
        k := k + 1;
      }
      out := text.(posVec := pos, uvVec := uv);
    }

    /** Adds a world-space text under a fresh key and returns the key. */
    method AddText(keys: TextKeys, xform: Mat4, color: Vec4, lineHeight: real, s: string) returns (key: nat)
      requires KeysBelow(keys)
      modifies this`textMap, keys
      ensures KeysBelow(keys)
      ensures key == old(keys.nextKey) && keys.nextKey == key + 1 && key !in old(textMap)
      ensures var st := Built(glyphMap, spaceGlyph, lineHeight, s);
        textMap == old(textMap)[key := Text(xform, color, st.pos, st.uv, false)]
    {
      var text := Text(xform, color, [], [], false);
      var pen;
      text, pen := BuildText(text, Vec2(0.0, 0.0), lineHeight, s);
      key := keys.nextKey;
      keys.nextKey := keys.nextKey + 1;
      textMap := MapInsert(textMap, key, text);
    }

    /**
     * Adds a screen-space text at character cell `pos` of a screen `numRows` rows high, under
     * a fresh key, and returns the key.
     */
    method AddText2D(keys: TextKeys, posX: int, posY: int, numRows: int, color: Vec4, s: string) returns (key: nat)
      requires KeysBelow(keys) && numRows != 0
      modifies this`textMap, keys
      ensures KeysBelow(keys)
      ensures key == old(keys.nextKey) && keys.nextKey == key + 1 && key !in old(textMap)
      ensures var lineHeight := 2.0 / numRows as real;
        var st := Built(glyphMap, spaceGlyph, lineHeight, s);
        textMap == old(textMap)[key := Text(ScreenXform(posX, posY, lineHeight, spaceGlyph), color, st.pos, st.uv, true)]
    {
      var lineHeight := 2.0 / numRows as real;
      var text := Text(ScreenXform(posX, posY, lineHeight, spaceGlyph), color, [], [], true);
      var pen;
      text, pen := BuildText(text, Vec2(0.0, 0.0), lineHeight, s);
      key := keys.nextKey;
      keys.nextKey := keys.nextKey + 1;
      textMap := MapInsert(textMap, key, text);
    }

    /** Replaces the transform of the text under `key`; a missing key changes nothing. */
    method SetTextXform(key: nat, xform: Mat4)
      modifies this`textMap
      ensures key in old(textMap) ==> textMap == old(textMap)[key := old(textMap)[key].(xform := xform)]
      ensures key !in old(textMap) ==> textMap == old(textMap)
    {
      if key in textMap {
        textMap := textMap[key := textMap[key].(xform := xform)];
      }
    }

    /** Removes the text under `key`, if any. */
    method RemoveText(key: nat)
      modifies this`textMap
      ensures textMap == old(textMap) - {key}
    {
      textMap := textMap - {key};
    }
  }

  /** The glyph table after entering the first `i` metrics, first entry per index winning. */
  function InsertAll(glyphs: map<int, Glyph>, metrics: seq<GlyphMetric>, i: nat): map<int, Glyph>
    requires i <= |metrics|
  {
    if i == 0 then glyphs
    else
      var prev := InsertAll(glyphs, metrics, i - 1);
      if OutOfRange(metrics[i - 1].key) then prev else MapInsert(prev, metrics[i - 1].key % 256, metrics[i - 1].glyph)
  }

  /** The byte indices of the first `i` metrics. */
  function MetricKeys(metrics: seq<GlyphMetric>, i: nat): set<int>
    requires i <= |metrics|
  {
    if i == 0 then {} else MetricKeys(metrics, i - 1) + {metrics[i - 1].key % 256}
  }

  /** Every index in the set comes from one of the first `i` metrics. */
  lemma {:induction false} MetricKeysFrom(metrics: seq<GlyphMetric>, i: nat, k: int)
    requires i <= |metrics| && k in MetricKeys(metrics, i)
    ensures exists q :: 0 <= q < i && metrics[q].key % 256 == k
  {
    if k != metrics[i - 1].key % 256 {
      MetricKeysFrom(metrics, i - 1, k);
    }
  }

  /** The table holds exactly the old keys and the byte indices of the metrics, and keeps every old entry. */
  lemma {:induction false} InsertAllKeys(glyphs: map<int, Glyph>, metrics: seq<GlyphMetric>, i: nat)
    requires i <= |metrics|
    ensures InsertAll(glyphs, metrics, i).Keys == glyphs.Keys + MetricKeys(metrics, i)
    ensures forall k :: k in glyphs ==> InsertAll(glyphs, metrics, i)[k] == glyphs[k]
  {
    if i != 0 {
      InsertAllKeys(glyphs, metrics, i - 1);
      OutOfRangeNever(metrics[i - 1].key);
    }
  }

  /** The first metric for an index gives its glyph. */
  lemma {:induction false} InsertAllFirstWins(glyphs: map<int, Glyph>, metrics: seq<GlyphMetric>, i: nat, j: nat)
    requires i <= |metrics| && j < i
    requires metrics[j].key % 256 !in glyphs
    requires forall q :: 0 <= q < j ==> metrics[q].key % 256 != metrics[j].key % 256
    ensures metrics[j].key % 256 in InsertAll(glyphs, metrics, i)
    ensures InsertAll(glyphs, metrics, i)[metrics[j].key % 256] == metrics[j].glyph
  {
    InsertAllKeys(glyphs, metrics, i);
    if j < i - 1 {
      InsertAllFirstWins(glyphs, metrics, i - 1, j);
      InsertAllKeys(glyphs, metrics, i - 1);
    } else {
      InsertAllKeys(glyphs, metrics, i - 1);
      OutOfRangeNever(metrics[j].key);
      if metrics[j].key % 256 in MetricKeys(metrics, j) {
        MetricKeysFrom(metrics, j, metrics[j].key % 256);
      }
    }
  }

  /** The screen transform of a 2D text: a translation to its character cell. */
  function ScreenXform(posX: int, posY: int, lineHeight: real, space: Glyph): Mat4
  {
    var offset := Vec3(0.1 * lineHeight, 1.0 - 0.75 * lineHeight, 0.0);
    Translation(offset.Add(Vec3(posX as real * space.advance.x * lineHeight, posY as real * -lineHeight, 0.0)))
  }
}
