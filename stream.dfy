/**
 * The parts of the C++ stream library the PLY readers rely on: a binary input file is a
 * byte sequence with a read position; `std::getline` reads up to the next '\n';
 * `read(buf, n)` copies at most `n` bytes and `gcount()` tells how many; an
 * `std::istringstream` splits a line into whitespace-separated words, and `>>` into a
 * number reads an optional sign and decimal digits.
 */
module Stream {

  import opened Common
  import Decimal

  // ---------------------------------------------------------------------------------
  // Bytes and characters.

  /** A byte read as a `char` of the line. */
  function CharOf(b: byte): char
  {
    (b as int) as char
  }

  predicate IsByteString(s: string)
  {
    forall i :: 0 <= i < |s| ==> s[i] as int < 256
  }

  function ToChars(bs: seq<byte>): (s: string)
    ensures |s| == |bs| && IsByteString(s)
    ensures forall i :: 0 <= i < |bs| ==> s[i] == CharOf(bs[i])
  {
    seq(|bs|, i requires 0 <= i < |bs| => CharOf(bs[i]))
  }

  /** The bytes an `std::ofstream` writes for a string of one-byte characters. */
  function ToBytes(s: string): (bs: seq<byte>)
    requires IsByteString(s)
    ensures |bs| == |s|
  {
    seq(|s|, i requires 0 <= i < |s| => (s[i] as int) as byte)
  }

  lemma ToCharsToBytes(s: string)
    requires IsByteString(s)
    ensures ToChars(ToBytes(s)) == s
  {
    var r := ToChars(ToBytes(s));
    forall i | 0 <= i < |s|
      ensures r[i] == s[i]
    {
      CharByteRoundTrip(s[i]);
    }
  }

  /** A one-byte character survives the trip through a byte. */
  lemma CharByteRoundTrip(c: char)
    requires c as int < 256
    ensures CharOf((c as int) as byte) == c
  {
    ByteIntRoundTrip(c as int);
  }

  lemma ToBytesAppend(s: string, t: string)
    requires IsByteString(s) && IsByteString(t)
    ensures IsByteString(s + t) && ToBytes(s + t) == ToBytes(s) + ToBytes(t)
  {
  }

  const Newline: byte := 10

  // ---------------------------------------------------------------------------------
  // `std::getline`.

  /** The position of the first '\n' at or after `pos`, or the end of the data. */
  function LineEnd(data: seq<byte>, pos: nat): (e: nat)
    requires pos <= |data|
    decreases |data| - pos
    ensures pos <= e <= |data|
    ensures e < |data| ==> data[e] == Newline
  {
    if pos == |data| || data[pos] == Newline then pos else LineEnd(data, pos + 1)
  }

  /** No '\n' lies between `pos` and the end of its line. */
  lemma {:induction false} LineEndIsFirst(data: seq<byte>, pos: nat, j: nat)
    requires pos <= |data| && pos <= j < LineEnd(data, pos)
    ensures data[j] != Newline
    decreases |data| - pos
  {
    if j > pos {
      LineEndIsFirst(data, pos + 1, j);
    }
  }

  datatype Line = Line(text: string, next: nat)

  /**
   * One `getline`: fails only at the end of the data; otherwise the text up to the next
   * '\n' (which is consumed but not stored), or the rest of the data when there is none.
   */
  function GetLine(data: seq<byte>, pos: nat): (r: Option<Line>)
    requires pos <= |data|
    ensures r.None? <==> pos == |data|
    ensures r.Some? ==> pos < r.value.next <= |data| && |r.value.text| < r.value.next - pos + 1
  {
    if pos == |data| then None
    else
      var e := LineEnd(data, pos);
      Some(Line(ToChars(data[pos..e]), if e < |data| then e + 1 else e))
  }

  /** A line starting with "comment", which the PLY readers that skip comments pass over. */
  predicate IsComment(line: string)
  {
    StartsWith(line, "comment")
  }

  /** `GetNextPlyLine`: the next line that is not a comment, or None at the end of the data. */
  function NextPlyLine(data: seq<byte>, pos: nat): (r: Option<Line>)
    requires pos <= |data|
    decreases |data| - pos
    ensures r.Some? ==> pos < r.value.next <= |data|
  {
    match GetLine(data, pos)
    case None => None
    case Some(l) => if IsComment(l.text) then NextPlyLine(data, l.next) else Some(l)
  }

  /** The line `NextPlyLine` returns is never a comment, and it is a line of the data. */
  lemma {:induction false} NextPlyLineSkipsComments(data: seq<byte>, pos: nat)
    requires pos <= |data|
    decreases |data| - pos
    ensures var r := NextPlyLine(data, pos);
      r.Some? ==> !IsComment(r.value.text) && exists p :: pos <= p <= |data| && GetLine(data, p) == r
  {
    var g := GetLine(data, pos);
    if g.Some? && IsComment(g.value.text) {
      NextPlyLineSkipsComments(data, g.value.next);
    }
  }

  /** A line that is not a comment is returned as it is. */
  lemma NextPlyLineOfNonComment(data: seq<byte>, pos: nat)
    requires pos <= |data| && GetLine(data, pos).Some? && !IsComment(GetLine(data, pos).value.text)
    ensures NextPlyLine(data, pos) == GetLine(data, pos)
  {
  }

  // ---------------------------------------------------------------------------------
  // The input stream object.

  function Min(a: nat, b: nat): nat { if a <= b then a else b }

  class InStream {
    const data: seq<byte>
    var pos: nat

    ghost predicate Valid()
      reads this`pos
    {
      pos <= |data|
    }

    constructor (contents: seq<byte>)
      ensures data == contents && pos == 0 && Valid()
    {
      data := contents;
      pos := 0;
    }

    /** `std::getline(stream, line)`; `ok` is the stream's truth value afterwards. */
    method Getline() returns (ok: bool, line: string)
      requires Valid()
      modifies this`pos
      ensures Valid()
      ensures ok == GetLine(data, old(pos)).Some?
      ensures ok ==> line == GetLine(data, old(pos)).value.text && pos == GetLine(data, old(pos)).value.next
      ensures !ok ==> pos == old(pos)
    {
      if pos == |data| {
        return false, "";
      }
      var e := pos;
      while e < |data| && data[e] != Newline
        invariant pos <= e <= |data|
        invariant LineEnd(data, pos) == LineEnd(data, e)
        decreases |data| - e
      {
        e := e + 1;
      }
      line := ToChars(data[pos..e]);
      pos := if e < |data| then e + 1 else e;
      ok := true;
    }

    /** `GetNextPlyLine(stream, line)`: reads lines until one does not start with "comment". */
    method GetNextPlyLine() returns (ok: bool, line: string)
      requires Valid()
      modifies this`pos
      ensures Valid()
      ensures ok == NextPlyLine(data, old(pos)).Some?
      ensures ok ==> line == NextPlyLine(data, old(pos)).value.text && pos == NextPlyLine(data, old(pos)).value.next
      ensures !ok ==> pos == |data|
    {
      while true
        invariant Valid() && NextPlyLine(data, old(pos)) == NextPlyLine(data, pos)
        decreases |data| - pos
      {
        ok, line := Getline();
        if !ok || !IsComment(line) {
          return;
        }
      }
    }

    /** `CheckLine` of src/ply.cpp and src/gaussiancloud.cpp: one `getline`, compared exactly. */
    method CheckLine(validLine: string) returns (ok: bool)
      requires Valid()
      modifies this`pos
      ensures Valid()
      ensures ok <==> GetLine(data, old(pos)).Some? && GetLine(data, old(pos)).value.text == validLine
      ensures GetLine(data, old(pos)).Some? ==> pos == GetLine(data, old(pos)).value.next
    {
      var got, line := Getline();
      ok := got && line == validLine;
    }

    /** `CheckLine` of src/pointcloud.cpp: the next non-comment line, compared exactly. */
    method CheckPlyLine(validLine: string) returns (ok: bool)
      requires Valid()
      modifies this`pos
      ensures Valid()
      ensures ok <==> NextPlyLine(data, old(pos)).Some? && NextPlyLine(data, old(pos)).value.text == validLine
      ensures NextPlyLine(data, old(pos)).Some? ==> pos == NextPlyLine(data, old(pos)).value.next
    {
      var got, line := GetNextPlyLine();
      ok := got && line == validLine;
    }

    /**
     * A chain `CheckLine(a) && CheckLine(b) && ...`: the lines are checked in order and the
     * first mismatch stops the chain. `skipComments` selects the reader of src/pointcloud.cpp.
     */
    method CheckLines(expected: seq<string>, skipComments: bool) returns (ok: bool)
      requires Valid()
      modifies this`pos
      ensures Valid()
      ensures ok == MatchLines(data, old(pos), expected, skipComments).Some?
      ensures ok ==> pos == MatchLines(data, old(pos), expected, skipComments).value
    {
      var k := 0;
      while k < |expected|
        invariant Valid() && k <= |expected|
        invariant MatchLines(data, old(pos), expected, skipComments)
          == MatchLines(data, pos, expected[k..], skipComments)
      {
        assert expected[k..][1..] == expected[k + 1..];
        if skipComments {
          ok := CheckPlyLine(expected[k]);
        } else {
          ok := CheckLine(expected[k]);
        }
        if !ok {
          return;
        }
        k := k + 1;
      }
      ok := true;
    }

    /** `read(buf, n)`: at most `n` bytes; `|got|` is what `gcount()` reports. */
    method Read(n: nat) returns (got: seq<byte>)
      requires Valid()
      modifies this`pos
      ensures Valid()
      ensures |got| == Min(n, |data| - old(pos))
      ensures got == data[old(pos)..old(pos) + |got|] && pos == old(pos) + |got|
    {
      var k := Min(n, |data| - pos);
      got := data[pos..pos + k];
      pos := pos + k;
    }
  }

  /** The line reader a PLY importer uses: plain `getline`, or `GetNextPlyLine`. */
  function ReadLine(data: seq<byte>, pos: nat, skipComments: bool): (r: Option<Line>)
    requires pos <= |data|
    ensures r.Some? ==> pos < r.value.next <= |data|
  {
    if skipComments then NextPlyLine(data, pos) else GetLine(data, pos)
  }

  /** Where a chain of `CheckLine` calls stops: None at the first missing or different line. */
  function MatchLines(data: seq<byte>, pos: nat, expected: seq<string>, skipComments: bool): (r: Option<nat>)
    requires pos <= |data|
    ensures r.Some? ==> pos <= r.value <= |data|
    decreases |expected|
  {
    if expected == [] then Some(pos)
    else
      match ReadLine(data, pos, skipComments)
      case None => None
      case Some(l) =>
        if l.text == expected[0] then MatchLines(data, l.next, expected[1..], skipComments) else None
  }

  /** Checking `a + b` is checking `a`, then `b` from where the first check stopped. */
  lemma {:induction false} MatchLinesAppend(data: seq<byte>, pos: nat, a: seq<string>, b: seq<string>, skipComments: bool)
    requires pos <= |data|
    ensures MatchLines(data, pos, a + b, skipComments) ==
      match MatchLines(data, pos, a, skipComments)
      case None => None
      case Some(p) => MatchLines(data, p, b, skipComments)
    decreases |a|
  {
    if a == [] {
      assert a + b == b;
    } else {
      assert (a + b)[0] == a[0] && (a + b)[1..] == a[1..] + b;
      match ReadLine(data, pos, skipComments)
      case None =>
      case Some(l) =>
        if l.text == a[0] {
          MatchLinesAppend(data, l.next, a[1..], b, skipComments);
        }
    }
  }

  /** One step of a chain of line checks. */
  lemma MatchLinesCons(data: seq<byte>, pos: nat, line: string, rest: seq<string>, skipComments: bool)
    requires pos <= |data|
    ensures MatchLines(data, pos, [line] + rest, skipComments) ==
      match ReadLine(data, pos, skipComments)
      case None => None
      case Some(l) => if l.text == line then MatchLines(data, l.next, rest, skipComments) else None
  {
    assert ([line] + rest)[0] == line && ([line] + rest)[1..] == rest;
  }

  /**
   * A chain that matched `a`, then two single lines, then `b` passes through the
   * positions between them.
   */
  lemma MatchLinesParts(data: seq<byte>, pos: nat, a: seq<string>, l1: string, l2: string, b: seq<string>,
                        skipComments: bool, end: nat)
    returns (p1: nat, p2: nat, p3: nat)
    requires pos <= |data| && MatchLines(data, pos, a + ([l1] + ([l2] + b)), skipComments) == Some(end)
    ensures MatchLines(data, pos, a, skipComments) == Some(p1) && p1 <= |data|
    ensures ReadLine(data, p1, skipComments) == Some(Line(l1, p2)) && p2 <= |data|
    ensures ReadLine(data, p2, skipComments) == Some(Line(l2, p3)) && p3 <= |data|
    ensures MatchLines(data, p3, b, skipComments) == Some(end)
  {
    MatchLinesAppend(data, pos, a, [l1] + ([l2] + b), skipComments);
    p1 := MatchLines(data, pos, a, skipComments).value;
    MatchLinesCons(data, p1, l1, [l2] + b, skipComments);
    p2 := ReadLine(data, p1, skipComments).value.next;
    MatchLinesCons(data, p2, l2, b, skipComments);
    p3 := ReadLine(data, p2, skipComments).value.next;
  }

  // ---------------------------------------------------------------------------------
  // The output stream, and reading back what it wrote.

  /** A binary `std::ofstream`: the bytes written so far. */
  class OutStream {
    var written: seq<byte>

    constructor ()
      ensures written == []
    {
      written := [];
    }

    /** `write(buf, n)`, and `<<` of a string. */
    method Write(bytes: seq<byte>)
      modifies this`written
      ensures written == old(written) + bytes
    {
      written := written + bytes;
    }
  }

  /** The bytes `<<` writes for lines, each followed by '\n'. */
  function LinesBytes(lines: seq<string>): (b: seq<byte>)
    requires AllWritable(lines)
    decreases |lines|
  {
    if lines == [] then [] else ToBytes(lines[0]) + [Newline] + LinesBytes(lines[1..])
  }

  /** A line a PLY writer can emit: one-byte characters and no '\n'. */
  predicate Writable(line: string)
  {
    IsByteString(line) && '\n' !in line
  }

  /** Lines a writer emits that a reader reads back one by one (no comments when they are skipped). */
  predicate AllWritable(lines: seq<string>)
    decreases |lines|
  {
    lines == [] || (Writable(lines[0]) && AllWritable(lines[1..]))
  }

  /** None of the lines starts with "comment". */
  predicate NoComments(lines: seq<string>)
    decreases |lines|
  {
    lines == [] || (!IsComment(lines[0]) && NoComments(lines[1..]))
  }

  /** A line whose first character is not 'c' is not a comment. */
  lemma NotComments()
    ensures forall line :: |line| > 0 && line[0] != 'c' ==> !IsComment(line)
  {
    forall line | |line| > 0 && line[0] != 'c'
      ensures !IsComment(line)
    {
      if |line| >= 7 {
        assert line[..7][0] != "comment"[0];
      }
    }
  }

  /** Lines each of which is writable and not a comment. */
  lemma {:induction false} AllWritableOf(lines: seq<string>)
    requires forall k :: 0 <= k < |lines| ==> Writable(lines[k])
    requires forall k :: 0 <= k < |lines| ==> |lines[k]| > 0 && lines[k][0] != 'c'
    ensures AllWritable(lines) && NoComments(lines)
    decreases |lines|
  {
    if lines != [] {
      NotComments();
      AllWritableOf(lines[1..]);
    }
  }

  lemma {:induction false} AllWritableAppend(a: seq<string>, b: seq<string>)
    requires AllWritable(a) && AllWritable(b)
    requires NoComments(a) && NoComments(b)
    ensures AllWritable(a + b) && NoComments(a + b)
    decreases |a|
  {
    if a == [] {
      assert a + b == b;
    } else {
      assert (a + b)[1..] == a[1..] + b;
      AllWritableAppend(a[1..], b);
    }
  }

  /** A writable line that is not a comment, put in front of such lines. */
  lemma WritableCons(line: string, rest: seq<string>)
    requires Writable(line) && |line| > 0 && line[0] != 'c'
    requires AllWritable(rest) && NoComments(rest)
    ensures AllWritable([line] + rest) && NoComments([line] + rest)
  {
    assert ([line] + rest)[1..] == rest;
    if |line| >= 7 {
      assert line[..7][0] != "comment"[0];
    }
  }

  /** The header line declaring a property of type `ty` called `name`. */
  function PropertyLine(ty: string, name: string): string
  {
    "property " + ty + " " + name
  }

  /** Text made of two writable pieces is writable. */
  lemma WritableAppend(a: string, b: string)
    requires Writable(a) && Writable(b)
    ensures Writable(a + b)
  {
    assert forall i :: 0 <= i < |a + b| ==> (a + b)[i] == if i < |a| then a[i] else b[i - |a|];
  }

  /** A property line of writable words is writable and is not a comment. */
  lemma PropertyLineWritable(ty: string, name: string)
    requires Writable(ty) && Writable(name)
    ensures Writable(PropertyLine(ty, name)) && |PropertyLine(ty, name)| > 0 && PropertyLine(ty, name)[0] == 'p'
  {
    assert Writable("property ");
    assert Writable(" ");
    WritableAppend("property ", ty);
    WritableAppend("property " + ty, " ");
    WritableAppend("property " + ty + " ", name);
  }

  /** The lines from `k` on are writable when line `k` and the lines after it are. */
  lemma WritableSuffix(lines: seq<string>, k: nat)
    requires k < |lines| && Writable(lines[k]) && |lines[k]| > 0 && lines[k][0] != 'c'
    requires AllWritable(lines[k + 1..]) && NoComments(lines[k + 1..])
    ensures AllWritable(lines[k..]) && NoComments(lines[k..])
  {
    assert lines[k..] == [lines[k]] + lines[k + 1..];
    WritableCons(lines[k], lines[k + 1..]);
  }

  /** The line that closes a PLY header. */
  lemma EndHeaderWritable()
    ensures Writable("end_header") && "end_header"[0] == 'e'
  {
  }

  /** The two lines that open every binary PLY file written here. */
  const PlyStart: seq<string> := ["ply", "format binary_little_endian 1.0"]

  /** The opening lines are writable and neither is a comment. */
  lemma PlyStartWritable()
    ensures AllWritable(PlyStart) && NoComments(PlyStart)
  {
    FormatLineBytes();
    FormatLineNoNewline();
    WritableCons("format binary_little_endian 1.0", []);
    assert Writable("ply");
    WritableCons("ply", ["format binary_little_endian 1.0"]);
  }

  lemma FormatLineBytes()
    ensures IsByteString("format binary_little_endian 1.0")
  {
  }

  lemma FormatLineNoNewline()
    ensures '\n' !in "format binary_little_endian 1.0"
  {
  }

  /** `LineEnd` stops at the first '\n'. */
  lemma {:induction false} LineEndAt(data: seq<byte>, pos: nat, e: nat)
    requires pos <= e < |data| && data[e] == Newline
    requires forall j :: pos <= j < e ==> data[j] != Newline
    ensures LineEnd(data, pos) == e
    decreases e - pos
  {
    if pos < e {
      LineEndAt(data, pos + 1, e);
    }
  }

  /** A written line followed by '\n' is read back by `getline` as it was written. */
  lemma GetLineOfWritten(data: seq<byte>, pos: nat, line: string)
    requires Writable(line)
    requires pos + |line| < |data| && data[pos..pos + |line|] == ToBytes(line) && data[pos + |line|] == Newline
    ensures GetLine(data, pos) == Some(Line(line, pos + |line| + 1))
  {
    forall j | pos <= j < pos + |line|
      ensures data[j] != Newline
    {
      assert data[j] == data[pos..pos + |line|][j - pos];
      assert line[j - pos] != '\n';
    }
    LineEndAt(data, pos, pos + |line|);
    ToCharsToBytes(line);
  }

  /**
   * Lines written by a PLY writer are matched by the same chain of `CheckLine` calls, as
   * long as none of them is a comment when comments are skipped.
   */
  lemma {:induction false} MatchWritten(data: seq<byte>, pos: nat, lines: seq<string>, skipComments: bool)
    requires AllWritable(lines) && (skipComments ==> NoComments(lines))
    requires pos + |LinesBytes(lines)| <= |data| && data[pos..pos + |LinesBytes(lines)|] == LinesBytes(lines)
    ensures MatchLines(data, pos, lines, skipComments) == Some(pos + |LinesBytes(lines)|)
    decreases |lines|
  {
    if lines != [] {
      var next := WrittenCons(data, pos, lines, skipComments);
      MatchWritten(data, next, lines[1..], skipComments);
    }
  }

  /**
   * Over written lines, the chain's first check reads the first line back and the rest
   * of the chain goes on at `next`, over the bytes of the other lines.
   */
  lemma WrittenCons(data: seq<byte>, pos: nat, lines: seq<string>, skipComments: bool) returns (next: nat)
    requires lines != [] && AllWritable(lines) && (skipComments ==> NoComments(lines))
    requires pos + |LinesBytes(lines)| <= |data| && data[pos..pos + |LinesBytes(lines)|] == LinesBytes(lines)
    ensures pos + |LinesBytes(lines)| == next + |LinesBytes(lines[1..])|
    ensures next <= |data| && MatchLines(data, pos, lines, skipComments) == MatchLines(data, next, lines[1..], skipComments)
    ensures AllWritable(lines[1..]) && (skipComments ==> NoComments(lines[1..]))
    ensures next + |LinesBytes(lines[1..])| <= |data| && data[next..next + |LinesBytes(lines[1..])|] == LinesBytes(lines[1..])
  {
    LinesBytesCons(lines);
    var line, first, rest := lines[0], ToBytes(lines[0]), LinesBytes(lines[1..]);
    assert |first| == |line|;
    SplitWindow(data, pos, first, rest);
    next := pos + |first| + 1;
    assert data[next..next + |rest|] == rest;
    ReadWrittenLine(data, pos, line, skipComments, next);
    MatchLinesStep(data, pos, lines, skipComments, next);
  }

  /** The bytes of a non-empty list of lines: the first line, '\n', then the others. */
  lemma LinesBytesCons(lines: seq<string>)
    requires lines != [] && AllWritable(lines)
    ensures Writable(lines[0]) && AllWritable(lines[1..])
    ensures LinesBytes(lines) == ToBytes(lines[0]) + [Newline] + LinesBytes(lines[1..])
    ensures |LinesBytes(lines)| == |lines[0]| + 1 + |LinesBytes(lines[1..])|
    ensures NoComments(lines) ==> !IsComment(lines[0]) && NoComments(lines[1..])
  {
  }

  /** One matched line: the rest of the chain goes on from the next line. */
  lemma MatchLinesStep(data: seq<byte>, pos: nat, lines: seq<string>, skipComments: bool, next: nat)
    requires pos <= |data| && lines != [] && ReadLine(data, pos, skipComments) == Some(Line(lines[0], next))
    ensures next <= |data|
    ensures MatchLines(data, pos, lines, skipComments) == MatchLines(data, next, lines[1..], skipComments)
  {
  }

  /** A window of the data holding a line, a '\n' and more. */
  lemma SplitWindow(data: seq<byte>, pos: nat, a: seq<byte>, b: seq<byte>)
    requires pos + |a| + 1 + |b| <= |data| && data[pos..pos + |a| + 1 + |b|] == a + [Newline] + b
    ensures data[pos..pos + |a|] == a && data[pos + |a|] == Newline
    ensures data[pos + |a| + 1..pos + |a| + 1 + |b|] == b
  {
    var w := data[pos..pos + |a| + 1 + |b|];
    assert data[pos..pos + |a|] == w[..|a|];
    assert data[pos + |a|] == w[|a|];
    assert data[pos + |a| + 1..pos + |a| + 1 + |b|] == w[|a| + 1..];
  }

  /** A written line is what the importer's line reader returns next. */
  lemma ReadWrittenLine(data: seq<byte>, pos: nat, l: string, skipComments: bool, next: nat)
    requires Writable(l) && !(skipComments && IsComment(l))
    requires pos + |l| < |data| && data[pos..pos + |l|] == ToBytes(l) && data[pos + |l|] == Newline
    requires next == pos + |l| + 1
    ensures ReadLine(data, pos, skipComments) == Some(Line(l, next))
  {
    GetLineOfWritten(data, pos, l);
    if skipComments {
      NextPlyLineOfNonComment(data, pos);
    }
  }

  // ---------------------------------------------------------------------------------
  // `std::istringstream` word extraction and numbers.

  /** The characters `isspace` accepts in the C locale. */
  predicate IsCSpace(c: char)
  {
    c == ' ' || '\t' <= c <= '\r'
  }

  /** The longest prefix without whitespace. */
  function WordAt(s: string): (w: string)
    ensures |w| <= |s| && w == s[..|w|]
    ensures |w| < |s| ==> IsCSpace(s[|w|])
    ensures s != [] && !IsCSpace(s[0]) ==> |w| >= 1
  {
    if s == [] || IsCSpace(s[0]) then [] else [s[0]] + WordAt(s[1..])
  }

  /** The words `>> std::string` extracts from a line, in order. */
  function Words(s: string): (ws: seq<string>)
    decreases |s|
  {
    if s == [] then []
    else if IsCSpace(s[0]) then Words(s[1..])
    else
      var w := WordAt(s);
      [w] + Words(s[|w|..])
  }

  predicate IsWord(w: string)
  {
    |w| > 0 && forall i :: 0 <= i < |w| ==> !IsCSpace(w[i])
  }

  /** Every extracted word is non-empty and free of whitespace. */
  lemma {:induction false} WordsAreWords(s: string)
    decreases |s|
    ensures forall k :: 0 <= k < |Words(s)| ==> IsWord(Words(s)[k])
  {
    if s != [] {
      if IsCSpace(s[0]) {
        WordsAreWords(s[1..]);
      } else {
        var w := WordAt(s);
        WordsAreWords(s[|w|..]);
        WordAtIsWord(s);
      }
    }
  }

  lemma {:induction false} WordAtIsWord(s: string)
    requires s != [] && !IsCSpace(s[0])
    ensures IsWord(WordAt(s))
  {
    var w := WordAt(s);
    forall i | 0 <= i < |w|
      ensures !IsCSpace(w[i])
    {
      WordAtPrefix(s, i);
    }
  }

  lemma {:induction false} WordAtPrefix(s: string, i: nat)
    requires i < |WordAt(s)|
    ensures !IsCSpace(s[i])
  {
    if i > 0 {
      WordAtPrefix(s[1..], i - 1);
    }
  }

  /** A word is read back whole. */
  lemma {:induction false} WordAtOfWord(w: string, rest: string)
    requires IsWord(w) && (rest == [] || IsCSpace(rest[0]))
    ensures WordAt(w + rest) == w
  {
    if |w| > 1 {
      assert (w + rest)[1..] == w[1..] + rest;
      WordAtOfWord(w[1..], rest);
    } else {
      assert (w + rest)[1..] == rest;
    }
  }

  /** Words separated by single spaces are extracted as they were written. */
  lemma WordsOfSpaced(w: string, rest: string)
    requires IsWord(w)
    ensures Words(w + " " + rest) == [w] + Words(rest)
  {
    WordAtOfWord(w, " " + rest);
    assert w + " " + rest == w + (" " + rest);
    assert (w + " " + rest)[|w|..] == " " + rest;
    assert (" " + rest)[1..] == rest;
  }

  /** Three words joined by single spaces split back into the three words. */
  lemma WordsOfThree(a: string, b: string, c: string)
    requires IsWord(a) && IsWord(b) && IsWord(c)
    ensures Words(a + " " + b + " " + c) == [a, b, c]
  {
    AppendAssoc(a + " " + b, " ", c);
    AppendAssoc(a + " ", b, " " + c);
    AppendAssoc(b, " ", c);
    WordsOfSpaced(a, b + " " + c);
    WordsOfSpaced(b, c);
    WordsOfWord(c);
  }

  lemma WordsOfWord(w: string)
    requires IsWord(w)
    ensures Words(w) == [w]
  {
    WordAtOfWord(w, []);
    assert w + [] == w;
  }

  /** The word at position `k` if the line has one, otherwise what the variable held before. */
  function Extract(ws: seq<string>, k: nat, previous: string): string
  {
    if k < |ws| then ws[k] else previous
  }

  /** The optional sign and the text after it. */
  function SplitSign(word: string): (bool, string)
  {
    if word != [] && (word[0] == '+' || word[0] == '-') then (word[0] == '-', word[1..]) else (false, word)
  }

  /** The magnitude `>>` reads: at least one digit, unbounded. */
  function Magnitude(word: string): Option<nat>
  {
    var d := Decimal.LeadingDigits(SplitSign(word).1);
    if d == [] then None else Some(Decimal.DigitsValue(d))
  }

  /** `>> int`: fails on a missing digit or a value outside the 32-bit range. */
  function ParseInt(word: string): (r: Option<int>)
    ensures r.Some? ==> -IntMax - 1 <= r.value <= IntMax
  {
    match Magnitude(word)
    case None => None
    case Some(m) =>
      var v: int := if SplitSign(word).0 then -(m as int) else m;
      if -IntMax - 1 <= v <= IntMax then Some(v) else None
  }

  /**
   * `>> size_t`: fails on a missing digit or a magnitude above 2^64 - 1; a minus sign
   * negates modulo 2^64, so "-1" reads as 2^64 - 1.
   */
  function ParseSize(word: string): (r: Option<nat>)
    ensures r.Some? ==> r.value < TwoTo64
  {
    match Magnitude(word)
    case None => None
    case Some(m) =>
      if m >= TwoTo64 then None
      else if SplitSign(word).0 then Some((TwoTo64 - m) % TwoTo64)
      else Some(m)
  }

  /** The decimal text `<<` writes for a count is read back by both readers. */
  lemma ParseOfNatToString(n: nat)
    ensures n <= IntMax ==> ParseInt(Decimal.NatToString(n)) == Some(n)
    ensures n < TwoTo64 ==> ParseSize(Decimal.NatToString(n)) == Some(n)
  {
    var s := Decimal.NatToString(n);
    assert SplitSign(s) == (false, s) by {
      assert Decimal.IsDigit(s[0]);
    }
    Decimal.LeadingDigitsOfDigits(s);
    Decimal.NatToStringRoundTrip(n);
  }

  /** "-1" is read as the largest `size_t`, and as -1 by the `int` reader. */
  lemma MinusOne()
    ensures ParseSize("-1") == Some(TwoTo64 - 1)
    ensures ParseInt("-1") == Some(-1)
  {
    assert SplitSign("-1") == (true, "1");
    assert Decimal.LeadingDigits("1") == "1";
    assert Decimal.DigitsValue("1") == 1;
  }

  // ---------------------------------------------------------------------------------
  // The element line of the point and gaussian files.

  /** `iss >> token1 >> token2 >> count` into an `int` with "element" and "vertex" as the tokens. */
  function VertexCount(line: string): Option<int>
  {
    var ws := Words(line);
    if |ws| >= 3 && ws[0] == "element" && ws[1] == "vertex" then ParseInt(ws[2]) else None
  }

  /** The element line the PLY writers emit for `n` vertices. */
  function ElementLine(n: nat): string
  {
    "element" + " " + "vertex" + " " + Decimal.NatToString(n)
  }

  /** Reading back the count line gives the count, when it fits in an `int`. */
  lemma ElementLineCount(n: nat)
    requires n <= IntMax
    ensures VertexCount(ElementLine(n)) == Some(n)
  {
    var d := Decimal.NatToString(n);
    assert forall i :: 0 <= i < |d| ==> Decimal.IsDigit(d[i]);
    WordsOfThree("element", "vertex", d);
    ParseOfNatToString(n);
  }

  /** The count line holds only letters, a space and digits. */
  lemma ElementLineWritable(n: nat)
    ensures Writable(ElementLine(n)) && !IsComment(ElementLine(n))
  {
    var d := Decimal.NatToString(n);
    var line := ElementLine(n);
    assert forall i :: 0 <= i < |d| ==> Decimal.IsDigit(d[i]);
    assert forall i :: 0 <= i < |d| ==> line[15 + i] == d[i];
    assert line[0] == 'e';
  }
}
