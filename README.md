# splatapult core, modelled in Dafny

Splatapult is a Gaussian-splat viewer for the desktop and for OpenXR headsets. Around its GPU
renderers sits a ring of small, deterministic parts, and this project models those parts and
proves what they promise:

- **`cameraconv.py`** reads a pose log of `timestamp x y z qx qy qz qw` lines, turns each
  quaternion into a rotation matrix and writes one camera descriptor per pose (`cameraconv.dfy`,
  with `quat.dfy`, `text.dfy` and `decimal.dfy`).
- **`gen_bary.py`** generates the uniform barycentric coordinates of a triangle and prints them
  as an array (`genbary.dfy`).
- **Text decoding**: the UTF-8 code-point decoder (both copies in `src/core/util.cpp` and
  `src/util.cpp`), the AABB test, `SafeNormalize` and the vec4 colour-space helpers (`util.dfy`,
  `legacyutil.dfy`).
- **Shader programs**: `ExpandMacros`, `AddMacro`, the constructor's macros, the expansion
  order of `LoadVertGeomFrag` and `Delete` (`program.dfy`).
- **PLY files**: the header grammar and the property table of `Ply`, `BinaryAttribute` reads and
  writes at an offset, and the point-cloud and gaussian-cloud importers and exporters
  (`ply.dfy`, `binaryattribute.dfy`, `bits.dfy`, `stream.dfy`, `pointcloud.dfy`,
  `gaussiancloud.dfy`).
- **Images**: the format and bottom-up row logic of `Image::Load` and `MultiplyAlpha` (`image.dfy`).
- **Small state machines and registries**: the generic `StateMachine`, the text renderer's glyph
  layout and key map, `InputBuddy`'s event dispatch and joypad, the app's argument parsing and key
  handlers, and `XrBuddy`'s path cache, extension check, swapchain format choice, session flag,
  action getters and frame gating (`statemachine.dfy`, `textrenderer.dfy`, `inputbuddy.dfy`,
  `app.dfy`, `xrbuddy.dfy`, `legacyxrbuddy.dfy`).
- **CPU-side buffers**: the two software renderers' pixel buffers, `BufferObject` and
  `VertexArrayObject`, the two debug line renderers and the camera-path renderer's vertex, colour
  and index lists (`pixels.dfy`, `softwarerenderer.dfy`, `softwaresplatrenderer.dfy`,
  `vertexbuffer.dfy`, `debugrenderer.dfy`, `debugdraw.dfy`, `camerapathrenderer.dfy`).

Each core source file has a module of its own. Five further modules are shared helpers
that stand for no single file: `Common` (bytes, vectors, matrices, options and sequence
helpers), `Text` (splitting and joining strings), `Decimal` (the decimal text of numbers),
`Bits` (float bit patterns as bytes) and `Pixels` (packed pixel words). `app.h` and
`camerasconfig.h` have no module: the fields of `App` they declare live in `Application`,
and of a camera only its matrix and field of view are kept. Code that is a pure expression
is a function, with lemmas about it. Code that changes state is a class whose methods have
`modifies` clauses, and each method is proved against a specification function. Loops that
fill a list are methods with loop invariants. Floats are `real` where only their value
matters and 32-bit patterns (`bv32`) where the bytes are written out. Bytes are `bv8` or,
in `ImageFile`, a `uint8` newtype.
Wider C++ unsigned wrap-around is written out (modulo 2^32 or 2^64) in `PlyFile.AllocSize`,
`CameraPaths.VertCount`, `Pixels.Pack` and `Application.PrevCameraAsWritten`; the image
buffer size and the text key counter are unbounded instead (see "## Left out"). SDL,
OpenGL, OpenXR, libpng, the file system and Python's `float()` are parameters or inputs.

Where the code and its documented intent disagree, the model follows the code. It then proves
the difference and gives the corrected definition beside it (see "## Findings").
`cameraconv.py` splits a line on a single space, not on runs of whitespace, so two adjacent
spaces give an empty field that fails `float()` (`CameraConv.DoubleSpaceFails`). The pose logs
it reads are written with single spaces, so this is taken as intended, not as a defect.

## Model

| member | source | states |
|---|---|---|
| CameraConv.TrimStartSpec | cameraconv.py:33-34 | `lstrip` removes exactly the leading whitespace and stops at a non-space |
| CameraConv.TrimEndSpec | cameraconv.py:33-34 | `rstrip` removes exactly the trailing whitespace and stops at a non-space |
| CameraConv.StripEmptyIffAllSpace | cameraconv.py:33 | `line.strip()` is empty exactly when every character of the line is whitespace |
| CameraConv.StripIsInfix | cameraconv.py:33-34 | the stripped line is an infix of the line with only whitespace cut on either side, and it neither starts nor ends with whitespace |
| CameraConv.ReadFloats | cameraconv.py:36-43 | reading the fields succeeds iff there are at least 8 fields and each of fields 0..7 converts; the values are those conversions in order |
| CameraConv.ParseRecordFields | cameraconv.py:34-44 | a line gives a record iff its split has at least 8 fields that all convert; the record's timestamp, x, y, z, qx, qy, qz, qw are fields 0..7, extra fields ignored |
| CameraConv.DoubleSpaceFails | cameraconv.py:34-44 | two consecutive spaces inside the stripped line give an empty field among the first 8, and `float("")` makes the line fail |
| CameraConv.NonBlank | cameraconv.py:32-33 | the lines that produce a record are a sub-list of the file's lines |
| CameraConv.ReadPoses | cameraconv.py:30-45 | the reading loop returns exactly the record list (or the first failure) of the specification function |
| CameraConv.ParsePosesRecordPerLine | cameraconv.py:32-45 | on success there is exactly one record per non-blank line, in file order, each the parse of that line |
| CameraConv.ParsePosesReportsFirstFailure | cameraconv.py:32-45 | a failing read reports the failure of the first non-blank line that fails |
| CameraConv.ParsePosesFailsIffBadLine | cameraconv.py:32-45 | reading fails exactly when some non-blank line fails to parse |
| CameraConv.BuildDescriptors | cameraconv.py:47-63 | one descriptor per record in order; descriptor k has id k, image name the decimal text of k, the record's timestamp and position, width 1920, height 1080, fx = fy = 1000.0 and the record's rotation; it fails (division by zero) iff some quaternion is zero |
| CameraConv.ImageNamesUnique | cameraconv.py:52-53 | image names are pairwise distinct because distinct ids have distinct decimal text |
| CameraConv.RotationsOrthonormal | cameraconv.py:49-63 | every rotation written has orthonormal columns and determinant +1 |
| CameraConv.Convert | cameraconv.py:30-66 | the whole script: a read failure is reported unchanged; otherwise it succeeds iff every record's quaternion is non-zero (else ZeroDivisionError), with one descriptor per non-blank line: id k, image name the decimal text of k, record k's timestamp and position, width 1920, height 1080, fx = fy = 1000.0 and record k's rotation |
| Quat.AsRotationMatrix | cameraconv.py:12-14 | the rotation matrix exists exactly when the quaternion's squared norm is non-zero (numpy-quaternion divides by it) |
| Quat.AsRotationMatrixIsScaled | cameraconv.py:12-14 | the matrix is the unnormalised rotation matrix of the quaternion divided by its squared norm |
| Quat.Column0Conjugation | cameraconv.py:17-22 | q·e_x·q* is the pure quaternion whose vector part is column 0 of the unnormalised matrix |
| Quat.Column1Conjugation | cameraconv.py:17-22 | q·e_y·q* is the pure quaternion whose vector part is column 1 of the unnormalised matrix |
| Quat.Column2Conjugation | cameraconv.py:17-22 | q·e_z·q* is the pure quaternion whose vector part is column 2 of the unnormalised matrix |
| Quat.QuatToMatIdentity | cameraconv.py:12-14 | the scalar-last identity (0, 0, 0, 1), reordered to scalar-first, gives the identity matrix |
| Quat.ColumnsAreRotatedAxes | cameraconv.py:12-22 | column k of the matrix is the unit axis e_k rotated by the quaternion, as `FromQuat` builds it |
| Quat.ScaledColumnsOrthogonal | cameraconv.py:12-14 | distinct columns of the unnormalised matrix are orthogonal and each has squared length n², n the squared norm |
| Quat.RotationColumns | cameraconv.py:12-14 | the columns of the matrix have dot product 1 with themselves and 0 with each other |
| Quat.AsRotationMatrixIsOrthonormal | cameraconv.py:12-14 | for every non-zero quaternion the matrix has orthonormal columns |
| Quat.DetScaled | cameraconv.py:12-14 | the unnormalised matrix has determinant n³, n the squared norm: the cross product of its rows 1 and 2 is n times row 0 |
| Quat.DetOfScaledRows | cameraconv.py:12-14 | scaling every row by c scales the determinant by c³; `AsRotationMatrix` scales by one over the squared norm |
| Quat.AsRotationMatrixIsProper | cameraconv.py:12-14 | for every non-zero quaternion the matrix has determinant +1, so with its orthonormal columns it is a rotation, not a reflection |
| Decimal.NatToString | cameraconv.py:53 | `str(i)` of a count: at least one digit, only digits, no leading zero, more than one digit exactly from 10 on |
| Decimal.NatToStringRoundTrip | cameraconv.py:53 | reading back the decimal text of `n` gives `n` |
| Decimal.NatToStringInjective | cameraconv.py:52-53 | distinct numbers have distinct decimal text |
| Text.SplitOn | cameraconv.py:34 | `split(" ")` yields at least one part and no part contains the separator |
| Text.JoinSplitOn | cameraconv.py:34 | joining the parts with the separator restores the line |
| Text.SplitOnJoin | cameraconv.py:34 | splitting a join of separator-free parts gives those parts back |
| Text.SplitOnSeparatorFree | cameraconv.py:34 | a line without the separator is one part |
| Text.SplitOnPrefix | cameraconv.py:34 | a separator-free word followed by the separator becomes the first part on its own |
| Text.AdjacentSeparatorsGiveEmptyPart | cameraconv.py:34 | two separators in a row leave an empty part between them |
| GenBary.RowPairs | src/gen_bary.py:5 | the inner loop visits `(i, j)` for `j` in `range(len)`, in order |
| GenBary.CoordsOf | src/gen_bary.py:6-9 | one triple per visited pair, triple k computed from pair k |
| GenBary.Generate | src/gen_bary.py:1-11 | the nested loops return exactly the triples of the visited pairs, in visiting order; n > 0 is required because i / n divides by n |
| GenBary.RowsLength | src/gen_bary.py:4-5 | after `i` rows twice the number of pairs is i(2n + 3 - i) |
| GenBary.PairsCount | src/gen_bary.py:4-9 | the generator returns exactly (n+1)(n+2)/2 triples |
| GenBary.RowsMembership | src/gen_bary.py:4-5 | a pair is visited in the first `i` rows iff its row is below `i` and j <= n - i |
| GenBary.PairsMembership | src/gen_bary.py:4-5 | the loops visit exactly the pairs with i + j <= n |
| GenBary.RowsAscending | src/gen_bary.py:4-5 | each pair comes strictly after the previous one in (i, j) order |
| GenBary.PairsAscending | src/gen_bary.py:4-5 | the triples are produced in strictly ascending (i, j) order |
| GenBary.CoordIsBarycentric | src/gen_bary.py:6-8 | lambda2 = i/n and lambda3 = j/n; the three components sum to 1 and each lies in [0, 1] |
| GenBary.GeneratedAreBarycentric | src/gen_bary.py:1-11 | every generated triple is barycentric |
| GenBary.PrintArray | src/gen_bary.py:15-18 | the output is the declaration line with the triple count, one initializer per triple in order, and the closing line |
| GenBary.ScriptArraySize | src/gen_bary.py:13-15 | for n = 25 the array has 351 elements and the declaration says 351 |
| Util.NextCodePointUTF8 | src/core/util.cpp:62-92 | the decoder as written: the advance is always 1 to 4 and the code point fits in 21 bits |
| Util.NextCodePointFixed | src/core/util.cpp:80-84 | the decoder with the 4-byte branch reading bytes 1, 2 and 3: advance 1 to 4, code point below 2^21 |
| Util.Encode | src/core/util.cpp:62-92 | the RFC 3629 (section 3) encoding the decoder is meant to invert: 1 to 4 bytes, the length announced by the leading byte |
| Util.AsciiDecodes | src/core/util.cpp:65-69 | a leading byte below 0x80 gives advance 1 and that byte as the code point |
| Util.InvalidLeadDecodesToZero | src/core/util.cpp:86-91 | a continuation byte or 0xF8..0xFF in leading position gives advance 1 and code point 0 |
| Util.AdvanceIsSequenceLength | src/core/util.cpp:62-92 | the advance is the RFC 3629 length of the sequence the leading byte starts |
| Util.DecodeEncodeBmp | src/core/util.cpp:65-79 | decoding the encoding of any code point up to 0xFFFF gives that code point and the encoded length |
| Util.TwoByteDecodes | src/core/util.cpp:70-74 | every two-byte encoding decodes to its code point with advance 2 |
| Util.ThreeByteDecodes | src/core/util.cpp:75-79 | every three-byte encoding decodes to its code point with advance 3 |
| Util.TwoByteBranch | src/core/util.cpp:70-74 | a leading byte 110xxxxx gives advance 2 and code point ((b0 & 0x1F) << 6) OR (b1 & 0x3F) |
| Util.ThreeByteBranch | src/core/util.cpp:75-79 | a leading byte 1110xxxx gives advance 3 and code point ((b0 & 0x0F) << 12) OR ((b1 & 0x3F) << 6) OR (b2 & 0x3F) |
| Util.FourByteBranch | src/core/util.cpp:80-84 | in the corrected decoder a leading byte 11110xxx assembles bytes 1, 2 and 3 |
| Util.FourByteBranchMisdecodes | src/core/util.cpp:80-84 | U+1F600 is F0 9F 98 80, but the decoder as written returns 0x1F7D8 for it, assembling bytes 1, 1, 2 |
| Util.DecodeEncodeFixed | src/core/util.cpp:62-92 | the corrected decoder inverts the encoder on every code point up to 0x10FFFF |
| Util.FixedAgreesBelowFourBytes | src/core/util.cpp:62-92 | the corrected decoder agrees with the original on every sequence that does not start a 4-byte one |
| Util.InsideIffClampFixes | src/core/util.cpp:350-355 | for a non-empty box a point is inside exactly when clamping it to the box leaves it unchanged |
| Util.AABBCornersAndNesting | src/core/util.cpp:350-355 | the test is inclusive (both corners are inside) and a box inside another keeps its points inside |
| Util.SafeNormalizeUnit | src/core/util.cpp:128-139 | the zero vector gives `ifZero`; any other vector gives the unit vector along it |
| Util.LinearSegmentRoundTrip | src/core/util.cpp:357-379 | on the linear segment `SRGBToLinear` undoes `LinearToSRGB` |
| Util.ConvertColor | src/core/util.cpp:381-402 | the vec4 conversions apply the curve to R, G and B independently and copy alpha unchanged |
| Util.ColorRoundTrip | src/core/util.cpp:381-402 | converting a colour to sRGB and back restores it when every channel is on the linear segment |
| LegacyUtil.NextCodePointUTF8 | src/util.cpp:48-78 | the older decoder: the advance is always 1 to 4 |
| LegacyUtil.DecoderCopiesAgree | src/util.cpp:48-78 | the older decoder, including its 4-byte branch reading bytes 1, 1, 2, is the same function as the core one |
| LegacyUtil.DecodeEncodeBmp | src/util.cpp:51-65 | the older decoder inverts the RFC 3629 encoder on every code point up to 0xFFFF |
| LegacyUtil.FourByteBranchMisdecodes | src/util.cpp:66-70 | the older decoder misreads U+1F600 (F0 9F 98 80) as 0x1F7D8 too |
| LegacyUtil.InvalidLeadDecodesToZero | src/util.cpp:71-77 | an invalid leading byte gives advance 1 and code point 0 |
| LegacyUtil.AABBCopiesAgree | src/util.cpp:297-302 | the older box test is the core one, inclusive on all six faces |
| LegacyUtil.GetRootPath | src/util.cpp:291-295 | the root path is always the fixed string "../../" |
| ShaderProgram.Find | src/core/program.cpp:40 | `result.find(token, pos)`: an occurrence found lies at or after `pos` and inside the text |
| ShaderProgram.FindLeftmost | src/core/program.cpp:40 | the search returns the leftmost occurrence at or after `pos`, and `npos` only when there is none |
| ShaderProgram.FindShift | src/core/program.cpp:40 | searching from `pos` finds what a search of the suffix finds, shifted by `pos` |
| ShaderProgram.ExpandMacros | src/core/program.cpp:33-49 | the loops produce exactly the specification's expansion: macros applied in list order, each replacing occurrences leftmost-first |
| ShaderProgram.ReplaceStep | src/core/program.cpp:40-45 | one replacement followed by the jump past the inserted value keeps the expansion of the whole text unchanged |
| ShaderProgram.AbsentTokenLeavesText | src/core/program.cpp:38-46 | a macro whose token does not occur leaves the text unchanged |
| ShaderProgram.FirstOccurrenceReplaced | src/core/program.cpp:40-46 | the result starts with the text before the first occurrence followed by the value |
| ShaderProgram.ReplaceBySelf | src/core/program.cpp:40-46 | replacing a token by itself changes nothing, so the loop ends even when a value contains its token |
| ShaderProgram.ValueNotRescanned | src/core/program.cpp:40-46 | for every text, token and value, the result is the text before the first occurrence, the value, then the replacement of the text after that occurrence: the search resumes past the inserted value, so a value containing its own token is inserted once |
| ShaderProgram.ExpandAllAppend | src/core/program.cpp:37-47 | expanding with a concatenated macro list is expanding with the first list, then with the second |
| ShaderProgram.Token | src/core/program.cpp:123-129 | the token is the key wrapped in `/*%%` and `%%*/`, 8 characters longer than the key, so never empty |
| ShaderProgram.TokenInjective | src/core/program.cpp:123-129 | distinct keys give distinct tokens |
| ShaderProgram.Released | src/core/program.cpp:416-444 | a handle after `Delete` is 0 when it was positive and unchanged otherwise |
| ShaderProgram.Program.constructor | src/core/program.cpp:109-116 | the handles start at 0 and the HEADER macro is registered first, with the platform's version line |
| ShaderProgram.Program.AddMacro | src/core/program.cpp:123-129 | appends (token, value) to the end of the macro list; nothing is removed or overwritten |
| ShaderProgram.Program.Delete | src/core/program.cpp:412-448 | every positive shader and program handle is released and zeroed, and `uniforms`, `attribs` and `debugName` are emptied |
| ShaderProgram.Program.LoadVertGeomFrag | src/core/program.cpp:135-200 | `debugName` joins the file names; loading fails iff a needed file is missing; the vertex and fragment sources are expanded once and the geometry source twice |
| BinaryAttr.TypeSizes | src/core/binaryattribute.cpp:8-18 | the size table: only Unknown has width 0, every other type has width 1, 2, 4 or 8, and only Double has 8 |
| BinaryAttr.Default | src/core/binaryattribute.h:29 | the default attribute is Unknown with size 0 and offset 0 |
| BinaryAttr.Make | src/core/binaryattribute.cpp:20-26 | `BinaryAttribute(type, offset)` keeps the type and offset and takes the size from the table |
| BinaryAttr.Get | src/core/binaryattribute.h:32-58 | null exactly for Unknown; otherwise the pointer is the data at the attribute's offset |
| BinaryAttr.Read | src/core/binaryattribute.h:60-65 | `Read<T>` gives a value of the type's width: zero for Unknown, otherwise the bytes at the offset |
| BinaryAttr.Write | src/core/binaryattribute.h:67-80 | succeeds iff the type is known; then the value's bytes replace the bytes at the offset, otherwise the buffer is unchanged |
| BinaryAttr.ReadAfterWrite | src/core/binaryattribute.h:60-80 | after a successful write, reading the same attribute returns the written value |
| BinaryAttr.WriteFrame | src/core/binaryattribute.h:67-80 | a write changes only the bytes from the offset to offset + size |
| BinaryAttr.ReadUnknownIsZero | src/core/binaryattribute.h:60-65 | reading an Unknown attribute gives zero whatever the buffer holds |
| BinaryAttr.RecordStartIsProduct | src/core/binaryattribute.h:88-92 | after `i` steps of `ptr += stride` the pointer is `i * stride` bytes in; the vertex loop of `Ply` advances its pointer by `vertexSize` in the same way |
| BinaryAttr.ForEach | src/core/binaryattribute.h:95-106 | the callback is called once per record, in order, on the attribute's bytes of record `i` |
| BinaryAttr.ApplyRecords | src/core/binaryattribute.h:82-93 | applying the callbacks to the first `n` records keeps the buffer's size |
| BinaryAttr.ForEachMut | src/core/binaryattribute.h:82-93 | the buffer afterwards is the specification's result of the callbacks on every record, in order |
| BinaryAttr.UpdateAt | src/core/binaryattribute.h:90 | one callback replaces the attribute's bytes by what it returns |
| BinaryAttr.ForEachMutStep | src/core/binaryattribute.h:88-92 | one turn of the loop: record `i` lies in the buffer and updating it gives the state after `i + 1` records |
| BinaryAttr.ApplyRecordsStep | src/core/binaryattribute.h:88-92 | the result after `n + 1` records is the result after `n` with record `n` updated |
| BinaryAttr.ApplyRecordsFrame | src/core/binaryattribute.h:82-93 | bytes outside the attribute of every visited record are left as they were |
| Stream.ToCharsToBytes | src/pointcloud.cpp:184-196 | the characters `<<` writes to a binary file are read back as the same characters |
| Stream.GetLine | src/ply.cpp:36 | `std::getline` yields no line exactly at the end of the data, and otherwise consumes at least one byte and at most the line and its newline |
| Stream.LineEndIsFirst | src/ply.cpp:36 | a line read by `getline` holds no newline: it stops at the first one |
| Stream.NextPlyLine | src/ply.cpp:39-49 | `GetNextPlyLine` reads forward from the current position, to at most the end of the data |
| Stream.NextPlyLineSkipsComments | src/ply.cpp:39-49 | the line `GetNextPlyLine` returns never starts with "comment", and it is a line of the data at or after the current position |
| Stream.NextPlyLineOfNonComment | src/ply.cpp:44-47 | a line that does not start with "comment" is returned as it is, with nothing skipped |
| Stream.InStream.Getline | src/ply.cpp:36 | the stream's truth value after `getline` is whether a line was left; the line is the text up to the newline and the position moves past it |
| Stream.InStream.GetNextPlyLine | src/ply.cpp:39-49 | succeeds exactly when a non-comment line remains, returns it and stands after it; on failure the stream is at its end; the copy at src/pointcloud.cpp:18-29 is the same code |
| Stream.InStream.CheckLine | src/ply.cpp:33-37 | true exactly when the next line exists and equals the expected text; the line is consumed either way; the copy at src/gaussiancloud.cpp:12-16 is the same code |
| Stream.InStream.CheckPlyLine | src/pointcloud.cpp:31-35 | the point cloud reader's variant: true exactly when the next non-comment line equals the expected text |
| Stream.InStream.CheckLines | src/pointcloud.cpp:86-94 | a chain of `CheckLine` calls joined by OR-of-negations succeeds exactly when every expected line follows in order, and stops after the last one |
| Stream.InStream.Read | src/ply.cpp:184 | `read(buf, n)` delivers the next `n` bytes, or as many as remain, and advances past them |
| Stream.MatchLinesAppend | src/pointcloud.cpp:51-52 | checking two groups of header lines one after the other is checking their concatenation |
| Stream.MatchLinesParts | src/gaussiancloud.cpp:32-56 | a successful check of a header splits into the checks of its parts, each starting where the previous one stopped |
| Stream.OutStream.Write | src/pointcloud.cpp:184-196 | `<<` of a string and `write` append their bytes to the file, nothing else changes |
| Stream.GetLineOfWritten | src/pointcloud.cpp:184-196 | a line written with a trailing newline is read back by `getline` as written, and reading stands after its newline |
| Stream.MatchWritten | src/pointcloud.cpp:184-196 | the header lines a writer emits pass the reader's chain of line checks, ending just after the header |
| Stream.ReadWrittenLine | src/pointcloud.cpp:18-29 | a written line that is not a comment is what the comment-skipping reader returns next |
| Stream.WordAt | src/ply.cpp:101 | `>>` of a string reads the longest prefix free of whitespace, stopping at a whitespace character |
| Stream.WordsAreWords | src/ply.cpp:101 | every token `>>` extracts is non-empty and free of whitespace |
| Stream.WordAtOfWord | src/ply.cpp:101 | a token followed by whitespace or the end of the line is read back whole |
| Stream.WordsOfThree | src/pointcloud.cpp:186 | "element vertex N" as written splits back into its three tokens |
| Stream.ParseInt | src/pointcloud.cpp:67-68 | `>> int` succeeds only with a value in the 32-bit range |
| Stream.ParseSize | src/ply.cpp:101 | `>> size_t` succeeds only with a value below 2^64 |
| Stream.ParseOfNatToString | src/pointcloud.cpp:186 | the decimal count `<<` writes is read back by `>> int` when it fits in an `int`, and by `>> size_t` when below 2^64 |
| Stream.MinusOne | src/ply.cpp:101 | a count written as "-1" reads as 2^64 - 1 into the `size_t` of the PLY reader and as -1 into an `int` |
| Stream.ElementLineCount | src/pointcloud.cpp:60-72 | the element line written for n vertices is parsed back to n by the "element vertex" test when n fits in an `int` |
| Stream.ElementLineWritable | src/pointcloud.cpp:186 | the element line holds only letters, spaces and digits and is not a comment |
| Bits.F32Bytes | src/pointcloud.cpp:201 | a `float` is written to the file as exactly four bytes |
| Bits.F32RoundTrip | src/pointcloud.cpp:201 | the four little-endian bytes written for a `float` are read back as the same 32 bits |
| Bits.F32BytesOf | src/gaussiancloud.cpp:139 | four bytes read into a `float` and written out again are the same four bytes |
| PlyFile.PlyTableAgrees | src/ply.cpp:21-31 | the PLY reader's size table and the attribute size table agree for every type |
| PlyFile.TypeOfName | src/ply.cpp:131-167 | every type name the header accepts (the names and their int8 to float64 aliases) maps to a known type |
| PlyFile.AddAllSize | src/ply.cpp:201-208 | each property line adds its type's size to the vertex size, duplicate names included |
| PlyFile.AddAllKeeps | src/ply.cpp:206 | `emplace` never replaces a property already in the map |
| PlyFile.AddAllFirstOccurrence | src/ply.cpp:205-207 | the entry kept for a name is its first property line, with its type, size and the vertex size before it as offset |
| PlyFile.AddAllKeys | src/ply.cpp:110-168 | a name is in the property map exactly when it was already there or some property line names it |
| PlyFile.AddAllSnoc | src/ply.cpp:201-208 | each further property line is one more `AddProperty` on the layout built so far |
| PlyFile.PropertyLinesNone | src/ply.cpp:112-116 | running out of lines in the property loop is an error, with the properties added before it kept |
| PlyFile.PropertyLinesStop | src/ply.cpp:118-130 | the loop stops at "end_header" (success) or at a line that is not a property line (error), having added nothing for it |
| PlyFile.PropertyLineStep | src/ply.cpp:123-162 | a property line adds one property named by its third token and the loop continues from the next line |
| PlyFile.HeaderStart | src/ply.cpp:61-105 | when the first three lines are accepted, the property lines start inside the data |
| PlyFile.BigEndianRejected | src/ply.cpp:82-91 | a big-endian format line is recognised and rejected as unsupported |
| PlyFile.AcceptedHeaderShape | src/ply.cpp:64-105 | an accepted header began with "ply", the little-endian format line and an "element vertex N" line giving the count |
| PlyFile.NonPropertyLineRejected | src/ply.cpp:126-130 | a line other than "end_header" whose first token is not "property" ends the header with an error |
| PlyFile.MissingEndHeaderRejected | src/ply.cpp:110-121 | a header with no "end_header" line is rejected |
| PlyFile.Ply.constructor | src/ply.cpp:52-55 | a new reader has no properties and vertex count and size zero |
| PlyFile.Ply.AddProperty | src/ply.cpp:201-208 | the layout after one property: added at the current vertex size if its name is new, and the vertex size grows by its type's size |
| PlyFile.Ply.GetProperty | src/ply.cpp:190-199 | a property is found exactly when its name is in the map |
| PlyFile.Ply.ReadHeaderStart | src/ply.cpp:61-105 | the first three header lines succeed exactly as the header specification says, yielding its count and position |
| PlyFile.Ply.ParseHeader | src/ply.cpp:57-171 | succeeds exactly when the header is well formed; the count, the stream position and the property table are those of the header |
| PlyFile.Ply.ReadProperties | src/ply.cpp:110-168 | the property loop succeeds exactly at "end_header" and adds every property line's property |
| PlyFile.Ply.AllocData | src/ply.cpp:210-213 | the new buffer has `vertexSize * numVertices` bytes, the product taken modulo 2^64 |
| PlyFile.Ply.Parse | src/ply.cpp:173-188 | succeeds exactly when the header does; then the buffer holds the body bytes that follow the header, up to its size |
| PlyFile.Ply.ReadBody | src/ply.cpp:180-185 | a fresh buffer with the next bytes of the file copied over its front |
| PlyFile.Ply.ForEachVertex | src/ply.cpp:215-223 | the callback is called once per vertex, in order, on record i of `vertexSize` bytes |
| PlyFile.AllocSize | src/ply.cpp:212 | the buffer size is a `size_t`, below 2^64 |
| PlyFile.ReadIntoBuffer | src/ply.cpp:184 | one `read` over the front of a fresh buffer leaves the bytes read followed by the untouched rest |
| PlyFile.RecordsInside | src/ply.cpp:218-222 | each of the first n records ends before record n starts |
| PlyFile.RecordInside | src/ply.cpp:218-222 | record i of n lies inside the first n records, and record i + 1 starts where it ends |
| PointCloudFile.Float3Bytes | src/pointcloud.cpp:201 | three floats are stored as 12 bytes |
| PointCloudFile.PointBytes | src/pointcloud.cpp:198-202 | a point is written as exactly `POINT_SIZE` = 27 bytes |
| PointCloudFile.Float3RoundTrip | src/pointcloud.cpp:201 | three floats written and read back are the same floats |
| PointCloudFile.Float3BytesOf | src/pointcloud.cpp:161 | 12 bytes read as three floats and written again are the same bytes |
| PointCloudFile.PointRoundTrip | src/pointcloud.cpp:161 | the 27 bytes written for a point are read back into the same point |
| PointCloudFile.PointBytesOf | src/pointcloud.cpp:161 | any 27 bytes read into a point and written again are the same bytes |
| PointCloudFile.PointHeader | src/pointcloud.cpp:50-123 | an accepted header leaves the records inside the data; a rejected one reports a header error, never a short read |
| PointCloudFile.Resize | src/pointcloud.cpp:131 | `resize(n)` keeps the first points and zero-fills new ones, giving exactly n points |
| PointCloudFile.ReadIntoFull | src/pointcloud.cpp:161 | a complete 27-byte read replaces the whole point |
| PointCloudFile.FloatsReadStep | src/pointcloud.cpp:158-167 | after one more complete record, points 0 to i hold their records and the rest is unchanged |
| PointCloudFile.FloatBodyComplete | src/pointcloud.cpp:157-171 | when every record is read completely, the import succeeds with the points read |
| PointCloudFile.FloatBodyShort | src/pointcloud.cpp:161-166 | a short read of point k fails the import, with point k partly overwritten and the points before it read |
| PointCloudFile.DoublesReadStep | src/pointcloud.cpp:132-151 | each complete 51-byte record is narrowed into point i |
| PointCloudFile.DoubleBodyComplete | src/pointcloud.cpp:127-152 | when every double record is read completely, the import succeeds |
| PointCloudFile.DoubleBodyShort | src/pointcloud.cpp:135-140 | a short read of double record k fails the import and leaves the points as they were before record k |
| PointCloudFile.RecordBytes | src/pointcloud.cpp:198-202 | the body holds 27 bytes per point |
| PointCloudFile.RecordBytesAt | src/pointcloud.cpp:199-202 | record i of the written body is exactly point i's bytes |
| PointCloudFile.RecordBytesStep | src/pointcloud.cpp:199-202 | writing one more point appends its 27 bytes |
| PointCloudFile.HeaderWritable | src/pointcloud.cpp:184-196 | the header lines written are plain text and none is a comment |
| PointCloudFile.ExportedHeader | src/pointcloud.cpp:184-196 | the header written for n points is read back as the float layout with n points, ending where the records begin |
| PointCloudFile.HeaderMatches | src/pointcloud.cpp:100-117 | the written header passes every line check of the float layout |
| PointCloudFile.RecordAfterHeader | src/pointcloud.cpp:161 | a record after any header decodes to the point whose bytes it holds |
| PointCloudFile.FloatRecordOf | src/pointcloud.cpp:161 | a record holding a point's bytes decodes to that point |
| PointCloudFile.ExportedRecords | src/pointcloud.cpp:155-167 | the records written are read back as the same points, whatever the vector held before |
| PointCloudFile.ExportImportRoundTrip | src/pointcloud.cpp:174-205 | importing what `ExportPly` wrote gives back the same points and succeeds, whenever their count fits in an `int` |
| PointCloudFile.FixedLinesWritable | src/pointcloud.cpp:51-52 | the format lines and the float-layout property lines are plain text and not comments |
| PointCloudFile.PointCloud.constructor | src/pointcloud.cpp:37-39 | a new cloud has no points |
| PointCloudFile.PointCloud.ImportPly | src/pointcloud.cpp:41-172 | a file that did not open gives `NotOpened` with the points and the read position unchanged; otherwise the status and the points after import are those of the import specification: header check, either layout, short reads |
| PointCloudFile.PointCloud.ReadFloatRecords | src/pointcloud.cpp:153-168 | the float branch reads each record straight into its point, as the float body specification says |
| PointCloudFile.PointCloud.ReadDoubleRecords | src/pointcloud.cpp:125-152 | the double branch reads and narrows each record, as the double body specification says |
| PointCloudFile.PointCloud.ExportPly | src/pointcloud.cpp:174-205 | an open file receives the header and the records; a file that did not open receives nothing and the call fails |
| PointCloudFile.WriteRecords | src/pointcloud.cpp:198-202 | the record loop appends each point's 27 bytes in vector order |
| PointCloudFile.PointCloud.InitDebugCloud | src/pointcloud.cpp:207-251 | the debug cloud is exactly the fifteen axis points |
| PointCloudFile.FillAxis | src/pointcloud.cpp:218-250 | one axis loop sets its five points and leaves the other ten alone |
| PointCloudFile.DebugCloudAt | src/pointcloud.cpp:214-250 | the debug cloud holds five points on the x axis in red, then y in green, then z in blue |
| GaussianCloudFile.ZeroFloats | src/gaussiancloud.h:19-28 | n zero floats |
| GaussianCloudFile.FloatsBytes | src/gaussiancloud.cpp:237 | a run of floats is stored as four bytes per float |
| GaussianCloudFile.FloatsBytesAt | src/gaussiancloud.cpp:237 | float i of a run occupies bytes 4i to 4i + 3 |
| GaussianCloudFile.GaussianBytes | src/gaussiancloud.cpp:232-238 | a gaussian is written as `GAUSSIAN_SIZE` = 62 floats = 248 bytes |
| GaussianCloudFile.GaussianRoundTrip | src/gaussiancloud.cpp:139 | the 248 bytes written for a gaussian are read back into the same gaussian |
| GaussianCloudFile.Indexed | src/gaussiancloud.cpp:62-117 | an array field of n floats is named by n indexed property names |
| GaussianCloudFile.PropertyLinesOf | src/gaussiancloud.cpp:56-118 | each name becomes one "property float" line, in order |
| GaussianCloudFile.PropertyCount | src/gaussiancloud.cpp:56-118 | the header checks one property line per float of the gaussian (62), then "end_header" |
| GaussianCloudFile.GaussianHeader | src/gaussiancloud.cpp:31-122 | an accepted header leaves the records inside the data; a rejected one fails on the start lines, the element line or the property lines |
| GaussianCloudFile.KeptStep | src/gaussiancloud.cpp:136-150 | one more complete record is appended exactly when its position is inside the box |
| GaussianCloudFile.BodyComplete | src/gaussiancloud.cpp:135-152 | when all n records are complete the import succeeds with every gaussian it kept |
| GaussianCloudFile.BodyShort | src/gaussiancloud.cpp:139-144 | an incomplete record i fails the import, keeping what was appended before it |
| GaussianCloudFile.FilterSnoc | src/gaussiancloud.cpp:145-149 | the box filter is applied record by record, in file order |
| GaussianCloudFile.FilterBounds | src/gaussiancloud.cpp:145-149 | the filter keeps at most what it is given, and only gaussians inside the box |
| GaussianCloudFile.FilterAllInside | src/gaussiancloud.cpp:145-149 | when every gaussian is inside the box, all of them are kept |
| GaussianCloudFile.Records | src/gaussiancloud.cpp:136-139 | the first i records decoded, one gaussian each |
| GaussianCloudFile.KeptIsFilter | src/gaussiancloud.cpp:136-150 | the loop appends exactly the records that pass the box test, in file order |
| GaussianCloudFile.BodyBounds | src/gaussiancloud.cpp:135-150 | the record loop appends at most n gaussians, each inside the box |
| GaussianCloudFile.ImportAppends | src/gaussiancloud.cpp:22-153 | an import keeps the gaussians already in the cloud as a prefix and appends only gaussians inside the box |
| GaussianCloudFile.RecordBytes | src/gaussiancloud.cpp:235-238 | the body holds 248 bytes per gaussian |
| GaussianCloudFile.RecordBytesAt | src/gaussiancloud.cpp:235-238 | record i of the written body is exactly gaussian i's bytes |
| GaussianCloudFile.RecordBytesStep | src/gaussiancloud.cpp:235-238 | writing one more gaussian appends its 248 bytes |
| GaussianCloudFile.HeaderWritable | src/gaussiancloud.cpp:165-230 | the written header lines are plain text and none is a comment |
| GaussianCloudFile.HeaderMatches | src/gaussiancloud.cpp:56-118 | the written header passes every line check of the reader |
| GaussianCloudFile.ExportedHeader | src/gaussiancloud.cpp:165-230 | the header written for n gaussians is accepted with count n and records starting right after it |
| GaussianCloudFile.RecordAfterHeader | src/gaussiancloud.cpp:139 | a record after any header decodes to the gaussian whose bytes it holds |
| GaussianCloudFile.ExportedRecords | src/gaussiancloud.cpp:235-238 | the records written are read back and filtered through the box |
| GaussianCloudFile.ExportImportRoundTrip | src/gaussiancloud.cpp:155-241 | importing what `ExportPly` wrote appends the exported gaussians inside the box to what the cloud held |
| GaussianCloudFile.ExportImportInside | src/gaussiancloud.cpp:129-150 | a cloud wholly inside the box, exported and imported into an empty cloud, comes back unchanged |
| GaussianCloudFile.GaussianCloud.constructor | src/gaussiancloud.cpp:18-20 | a new cloud holds no gaussians |
| GaussianCloudFile.GaussianCloud.ImportPly | src/gaussiancloud.cpp:22-153 | a file that did not open gives `NotOpened` with the gaussians and the read position unchanged; otherwise the status and the gaussians after import are those of the import specification |
| GaussianCloudFile.GaussianCloud.ReadRecords | src/gaussiancloud.cpp:135-152 | the record loop appends to the cloud exactly what the body specification keeps, with its status |
| GaussianCloudFile.GaussianCloud.ExportPly | src/gaussiancloud.cpp:155-241 | an open file receives the header and the records; a file that did not open receives nothing and the call fails |
| GaussianCloudFile.WriteRecords | src/gaussiancloud.cpp:235-238 | the record loop appends each gaussian's 248 bytes in vector order |
| ImageFile.PixelSize | src/core/image.cpp:79-101 | one to four bytes per pixel, an even number exactly for the formats with alpha |
| ImageFile.FormatOf | src/core/image.cpp:80-101 | exactly grey, grey+alpha, RGB and RGBA load, and the format has alpha exactly for the colour types with alpha |
| ImageFile.BottomUpLength | src/core/image.cpp:105-111 | copying i rows fills i row sizes of the buffer |
| ImageFile.BottomUpRow | src/core/image.cpp:108-111 | the buffer is stored flipped: buffer row r is file row `height - 1 - r` |
| ImageFile.PremulAtMost | src/core/image.cpp:139-141 | multiplying by alpha never brightens a channel |
| ImageFile.PremulOpaque | src/core/image.cpp:139-141 | full alpha keeps the channel |
| ImageFile.PremulTransparent | src/core/image.cpp:139-141 | zero alpha clears the channel |
| ImageFile.GrayAlphaPixels | src/core/image.cpp:134-143 | the first i grey+alpha pixels with alpha multiplied in take 2i bytes |
| ImageFile.RgbaPixels | src/core/image.cpp:144-157 | the first i RGBA pixels with alpha multiplied in take 4i bytes |
| ImageFile.MultipliedAlpha | src/core/image.cpp:128-158 | multiplying alpha in keeps the buffer's length |
| ImageFile.GrayAlphaPixelsAt | src/core/image.cpp:139-141 | the grey byte of pixel p is scaled by its alpha byte, which is kept |
| ImageFile.RgbaPixelsAt | src/core/image.cpp:149-155 | each colour byte of pixel p is scaled by its alpha byte, which is kept |
| ImageFile.TailKept | src/core/image.cpp:137 | bytes after the `width * height` pixels are untouched |
| ImageFile.NoAlphaUnchanged | src/core/image.cpp:130-133 | images without alpha are left alone |
| ImageFile.GrayAlphaMultiplied | src/core/image.cpp:134-143 | a grey+alpha pixel keeps its alpha, its grey is scaled: cleared at alpha 0, kept at 255, never brighter |
| ImageFile.RgbaMultiplied | src/core/image.cpp:144-157 | an RGBA pixel keeps its alpha, each colour is scaled: cleared at alpha 0, kept at 255, never brighter |
| ImageFile.Decoded | src/core/image.cpp:103-114 | the loaded buffer has `width * height * pixelSize` bytes |
| ImageFile.DecodedRow | src/core/image.cpp:108-114 | without alpha, buffer row r is file row `height - 1 - r`, byte for byte |
| ImageFile.Image.constructor | src/core/image.cpp:18-20 | a new image is empty, single-channel and linear |
| ImageFile.Image.MultiplyAlpha | src/core/image.cpp:128-158 | the buffer afterwards is the alpha-multiplied buffer of the `width * height` pixels |
| ImageFile.Image.MultiplyGrayAlpha | src/core/image.cpp:134-143 | the grey+alpha loop multiplies alpha into the first n pixels |
| ImageFile.Image.MultiplyRgba | src/core/image.cpp:144-157 | the RGBA loop multiplies alpha into the colour bytes of the first n pixels |
| ImageFile.Image.Load | src/core/image.cpp:22-126 | loads exactly a PNG file with 8-bit depth and a supported colour type, and then holds its pixels and is sRGB; otherwise the image is unchanged except that sRGB is set once the file was read as PNG with another depth |
| ImageFile.Image.StorePixels | src/core/image.cpp:103-114 | takes the file's size and format, copies its rows bottom up and multiplies alpha |
| ImageFile.Image.CopyRows | src/core/image.cpp:107-111 | the rows are copied into the buffer last row first |
| Common.MapInsert | src/core/statemachine.h:49-50 | `std::map::insert` adds the key with the value only when the key is new; an existing entry is kept and no other entry changes |
| Common.MapInsertKeepsFirst | src/core/statemachine.h:46-51 | registering the same key twice keeps the first registration |
| Common.SpliceContents | src/core/binaryattribute.h:73 | storing a value through the attribute pointer changes exactly the bytes at its offset |
| Common.StoreBytes | src/core/binaryattribute.h:73 | the store through the pointer leaves the buffer equal to the old buffer with the value spliced in at the offset |
| StateMachines.Fire | src/core/statemachine.h:60-66 | however many transitions fire, the machine ends in a registered state |
| StateMachines.FireCallCount | src/core/statemachine.h:60-66 | each transition's guard is called once, and each firing adds one exit and one enter call |
| StateMachines.FireNone | src/core/statemachine.h:60-66 | when no guard fires the machine stays where it was |
| StateMachines.FireLast | src/core/statemachine.h:60-66 | when several guards fire, the machine ends in the target of the last one that fired |
| StateMachines.StateMachine.constructor | src/core/statemachine.h:41-44 | starts in the default state, with nothing registered and logging off |
| StateMachines.StateMachine.AddState | src/core/statemachine.h:46-51 | registers the state and its name with no transitions, unless it is already registered, in which case both keep their first registration |
| StateMachines.StateMachine.AddTransition | src/core/statemachine.h:53-56 | appends one transition to the registered state's list, and no other state changes |
| StateMachines.StateMachine.ChangeState | src/core/statemachine.h:70-79 | the current state's exit runs, then the new state's enter, and the new state becomes current |
| StateMachines.StateMachine.Process | src/core/statemachine.h:58-68 | the guards of the state current at entry are tried in order, each firing one changes state, then the process callback of the state reached runs with dt |
| StateMachines.StateMachine.SetDebug | src/core/statemachine.h:81 | sets the logging flag |
| TextRendering.GlyphKey | src/core/textrenderer.cpp:151 | a character is looked up by its value as an unsigned byte, 0 to 255 |
| TextRendering.OutOfRangeNever | src/core/textrenderer.cpp:37-41 | the range test joins its two comparisons with AND, so it never holds and no glyph is ever skipped |
| TextRendering.QuadSharesDiagonal | src/core/textrenderer.cpp:158-169 | a glyph is six positions and six texture coordinates, two triangles sharing the lower-left to upper-right diagonal |
| TextRendering.LaidCounts | src/core/textrenderer.cpp:127-174 | each character with a glyph adds six positions and six texture coordinates, and no other character adds any |
| TextRendering.LaidExtends | src/core/textrenderer.cpp:127-174 | laying out text only appends to the vertex lists |
| TextRendering.TabAlignsColumn | src/core/textrenderer.cpp:143-148 | a tab moves the column to the next multiple of `TAB_SIZE`, by one to four columns, and adds no vertex |
| TextRendering.NewlineKeepsColumn | src/core/textrenderer.cpp:138-142 | a newline starts the next row at x = 0 but leaves the column counter as it was |
| TextRendering.UnknownIgnored | src/core/textrenderer.cpp:151-155 | a character with no glyph changes nothing, not even the pen or the column |
| TextRendering.TextKeys.constructor | src/core/textrenderer.cpp:14 | the shared key counter starts at 1 |
| TextRendering.TextRenderer.constructor | src/core/textrenderer.cpp:16-19 | a new renderer has no glyphs and no texts |
| TextRendering.TextRenderer.LoadGlyphs | src/core/textrenderer.cpp:32-71 | sets the texture width, inserts each metric's glyph under its byte key with first insert winning, and takes the space glyph when there is one |
| TextRendering.TextRenderer.PlaceChar | src/core/textrenderer.cpp:131-173 | one character of the layout loop is one layout step |
| TextRendering.TextRenderer.BuildText | src/core/textrenderer.cpp:127-174 | the text's vertex lists and the pen after the loop are those of laying out the whole string from the pen |
| TextRendering.TextRenderer.AddText | src/core/textrenderer.cpp:177-194 | a world-space text built from the origin is stored under a fresh key, the counter moves on by one, and the key is returned |
| TextRendering.TextRenderer.AddText2D | src/core/textrenderer.cpp:196-215 | a screen-space text with line height `2 / numRows` and its offset transform is stored under a fresh key |
| TextRendering.TextRenderer.SetTextXform | src/core/textrenderer.cpp:217-224 | replaces the transform of the text under the key; a missing key changes nothing |
| TextRendering.TextRenderer.RemoveText | src/core/textrenderer.cpp:227-230 | removes the text under the key, if any, and nothing else |
| TextRendering.MetricKeysFrom | src/core/textrenderer.cpp:34-55 | every key in the table came from one of the metrics |
| TextRendering.InsertAllKeys | src/core/textrenderer.cpp:34-55 | the table holds exactly the old keys and the byte keys of the metrics, and old entries are kept |
| TextRendering.InsertAllFirstWins | src/core/textrenderer.cpp:54 | the first metric for a key gives that key's glyph |
| Input.KeyDispatch | src/core/inputbuddy.cpp:33-45 | a key event runs exactly one callback, the key's own with the up/down flag and the modifiers, exactly when the key is registered and the event is not a repeat; otherwise none |
| Input.JoystickEventsCallNothing | src/core/inputbuddy.cpp:46-55 | joystick events run no callback |
| Input.Deadspot | src/core/inputbuddy.cpp:115-119 | a stick reading is kept as it is or replaced by zero, and it is zero exactly when its magnitude is at most 0.15 |
| Input.DeadspotIdempotentOdd | src/core/inputbuddy.cpp:115-119 | the dead zone applied twice is applied once, and it is symmetric about zero |
| Input.TriggerRange | src/core/inputbuddy.cpp:144-149 | a trigger reading lies between -1/65534 and 1; it is negative only for the reading -32768, and the largest reading gives exactly 1 |
| Input.AxisUpdatesOne | src/core/inputbuddy.cpp:121-151 | an axis event of joystick 0 for axes 0 to 5 sets that axis (sticks through the dead zone, y negated; triggers rescaled) and leaves the buttons and d-pad alone |
| Input.AxisKeepsOthers | src/core/inputbuddy.cpp:130-150 | every other axis keeps its value |
| Input.AxisIgnored | src/core/inputbuddy.cpp:124-127 | an axis above 5, or any axis of another joystick, changes nothing |
| Input.HatDirectionsIndependent | src/core/inputbuddy.cpp:155-172 | the d-pad hat sets each of the four directions from its own bit and changes nothing else |
| Input.HatIgnored | src/core/inputbuddy.cpp:158-171 | another hat, or a hat of another joystick, changes nothing |
| Input.ButtonUpdatesOne | src/core/inputbuddy.cpp:185-226 | a button event of joystick 0 for buttons 0 to 9 sets that button to whether its state is non-zero, leaving axes and d-pad alone |
| Input.ButtonKeepsOthers | src/core/inputbuddy.cpp:193-225 | every other button keeps its state |
| Input.ButtonIgnored | src/core/inputbuddy.cpp:188-191 | an unmapped button, or a button of another joystick, changes nothing |
| Input.OtherJoysticksIgnored | src/core/inputbuddy.cpp:124-126 | events of any joystick other than the first never change the joypad |
| Input.InputBuddy.constructor | src/core/inputbuddy.h:33-36 | no callbacks registered and the joypad zeroed |
| Input.InputBuddy.OnKey | src/core/inputbuddy.cpp:78-81 | registers a key callback; a key that already has one keeps its first |
| Input.InputBuddy.OnQuit | src/core/inputbuddy.cpp:83-86 | replaces the quit callback |
| Input.InputBuddy.OnResize | src/core/inputbuddy.cpp:88-91 | replaces the resize callback |
| Input.InputBuddy.OnMouseButton | src/core/inputbuddy.cpp:93-96 | replaces the mouse-button callback |
| Input.InputBuddy.OnMouseMotion | src/core/inputbuddy.cpp:98-101 | replaces the mouse-motion callback |
| Input.InputBuddy.UpdateJoypadAxis | src/core/inputbuddy.cpp:121-151 | the joypad after an axis event is the axis-update specification of the old joypad |
| Input.InputBuddy.UpdateJoypadHat | src/core/inputbuddy.cpp:155-172 | the joypad after a hat event is the hat-update specification of the old joypad |
| Input.InputBuddy.UpdateJoypadButton | src/core/inputbuddy.cpp:185-226 | the joypad after a button event is the button-update specification of the old joypad |
| Input.InputBuddy.ProcessEvent | src/core/inputbuddy.cpp:26-76 | each event changes the joypad as the joypad specification says and runs exactly the callbacks the dispatch specification lists |
| Application.ScannedFlags | src/app.cpp:161-175 | after the scan of the arguments before the last, each of VR mode, fullscreen and debug logging is on exactly when it was on before or one of its two spellings was given |
| Application.ScanKeepsDisplay | src/app.cpp:161-175 | the scan never changes the display options |
| Application.ApplyFlagKeepsDisplay | src/app.cpp:163-174 | a single argument never changes the display options |
| Application.WithSlashEnds | src/app.cpp:176-182 | the data directory ends in a slash or backslash, extends the argument by at most one character, is unchanged when it already ends in one, and is stable under a second application |
| Application.ToggleTwice | src/app.cpp:385-437 | pressing a toggle key twice restores the options, one press always changes its own option, and VR mode and debug logging are never toggled |
| Application.PrevCameraAsWritten | src/app.cpp:402-409 | the "previous camera" step as written, with `cameraIndex - 1` wrapping as a 64-bit `size_t`, still gives an index in range |
| Application.CameraCycle | src/app.cpp:393-409 | the next camera wraps from the last to the first, the intended previous camera wraps from the first to the last, and each undoes the other |
| Application.PrevCameraAgreesAboveZero | src/app.cpp:402-409 | away from the first camera, the step as written is the intended step back |
| Application.PrevCameraWrapMisses | src/app.cpp:406 | with three cameras, stepping back from the first stays on the first instead of reaching the last |
| Application.PrevCameraFromZero | src/app.cpp:406 | stepping back from the first camera reaches the last exactly when the number of cameras divides 2^64 |
| Application.PressReleaseCancels | src/app.cpp:439-487 | a key press followed by its release, or the reverse, leaves the virtual sticks where they were, and pressing opposite keys cancels |
| Application.App.constructor | src/app.cpp:141-148 | default options, camera index 0, no quit request, no camera configuration and the virtual sticks at rest |
| Application.App.ParseArguments | src/app.cpp:150-196 | with no directory argument it fails; otherwise the flags are scanned, the data directory is the last argument with a trailing slash, and success is whether that directory exists |
| Application.App.EscapeKey | src/app.cpp:380-383 | the escape key requests quit on press and on release |
| Application.App.ToggleKeyEvent | src/app.cpp:385-437 | the toggle keys flip their display option on press only |
| Application.App.NextCameraKey | src/app.cpp:393-400 | on press, with a camera configuration, selects the next camera, cyclically; otherwise the index is kept |
| Application.App.PrevCameraKey | src/app.cpp:402-409 | on press, with a camera configuration, applies the previous-camera step as written; the index stays in range |
| Application.App.StickKeyEvent | src/app.cpp:439-487 | each movement key adds its unit to its virtual stick axis on press and takes it away on release |
| XrSession.PathCache.constructor | src/core/xrbuddy.cpp:30-50 | a new cache holds no paths and converts with the instance's string-to-path function |
| XrSession.PathCache.Get | src/core/xrbuddy.cpp:33-47 | returns the path of the key; a key already cached leaves the cache as it was, a new key is converted once and inserted; the copy at src/xrbuddy.cpp:21-35 is the same code |
| XrSession.ExtensionSupported | src/core/xrbuddy.cpp:109-120 | true exactly when the runtime lists the extension name, found by a scan of the whole list; the copy at src/xrbuddy.cpp:94-105 is the same code |
| XrSession.SupportedOf | src/core/xrbuddy.cpp:1027-1033 | the optional extensions that are enabled are exactly those the runtime lists, in their order |
| XrSession.EnableExtensions | src/core/xrbuddy.cpp:1017-1033 | the constructor succeeds exactly when every required extension is listed; then it enables the required ones followed by the listed optional ones, otherwise it stops at the first missing required one; nothing unlisted is ever enabled |
| XrSession.ScanEven | src/core/xrbuddy.cpp:881-893 | the inner loop as written visits only even indices and stops at the first even index holding the format |
| XrSession.FindEven | src/core/xrbuddy.cpp:872-905 | the nested search as written finds the first desired format held at an even index, in order of preference |
| XrSession.SelectSwapchainFormat | src/core/xrbuddy.cpp:872-905 | the nested loops compute the format selection as written |
| XrSession.SwapchainFormatAsWrittenChoice | src/core/xrbuddy.cpp:872-905 | the chosen format is one offered; a desired format is chosen only from an even index, and with none at an even index the first offered format is used |
| XrSession.Scan | src/core/xrbuddy.cpp:881-893 | the search over every index, as evidently intended, stops at the first index holding the format |
| XrSession.FindFirst | src/core/xrbuddy.cpp:872-905 | the intended search finds the first desired format offered at any index |
| XrSession.SwapchainFormatPrefersDesired | src/core/xrbuddy.cpp:872-905 | with the intended search the most preferred desired format offered anywhere is chosen, and with none offered the first offered format |
| XrSession.EvenSearchMissesOddIndex | src/core/xrbuddy.cpp:881-893 | RGB16F offered at index 1 is missed by the search as written but found by the intended one |
| XrSession.HandleEvent | src/core/xrbuddy.cpp:1119-1198 | a state change is stored; READY calls `xrBeginSession` and marks the session ready when it succeeds; STOPPING calls `xrEndSession` and clears ready when it succeeds; the event fails only when such a call fails |
| XrSession.PollOkIffCallsOk | src/core/xrbuddy.cpp:1109-1205 | polling succeeds exactly when every begin or end call made succeeds |
| XrSession.PollStops | src/core/xrbuddy.cpp:1139-1168 | once a call fails polling returns, and later events no longer change the session |
| XrSession.ReadyOnlyAfterBegin | src/core/xrbuddy.cpp:1139-1147 | the session becomes ready only through a successful begin on READY |
| XrSession.NotReadyOnlyAfterEnd | src/core/xrbuddy.cpp:1160-1168 | a ready session stops being ready only through a successful end on STOPPING |
| XrSession.LastStateKept | src/core/xrbuddy.cpp:1132 | when every call succeeds, the stored state is the one carried by the last state change |
| XrSession.RenderFrame | src/core/xrbuddy.cpp:1547-1625 | outside the running states nothing is called and the frame succeeds; otherwise the first call is `xrWaitFrame`; the copy at src/xrbuddy.cpp:1383-1462 is the same code |
| XrSession.RenderFrameOutcome | src/core/xrbuddy.cpp:1551-1625 | the frame is ended exactly when it runs and the wait, begin and (when rendering) locate calls succeed; it succeeds exactly when every call made succeeds; a layer is submitted exactly when rendering is asked for and locating and rendering succeed |
| XrSession.GetActionBool | src/core/xrbuddy.cpp:1307-1327 | false for a name that is not a boolean action; outside FOCUSED the outputs are false, otherwise the action's current state and flags; the copy at src/xrbuddy.cpp:1163-1184 is the same code |
| XrSession.GetActionFloat | src/core/xrbuddy.cpp:1329-1349 | false for a name that is not a float action; outside FOCUSED the value is 0 and the flags false; the copy at src/xrbuddy.cpp:1185-1206 is the same code |
| XrSession.GetActionVec2 | src/core/xrbuddy.cpp:1351-1371 | false for a name that is not a 2D action; outside FOCUSED the value is (0, 0) and the flags false; the copy at src/xrbuddy.cpp:1207-1228 is the same code |
| XrSession.GetActionPosition | src/core/xrbuddy.cpp:1373-1402 | "head_pose" reads the view position and its valid and tracked bits; any other name must be a pose action, read only when live, else the origin with false flags; the copy at src/xrbuddy.cpp:1229-1259 is the same code |
| XrSession.GetActionOrientation | src/core/xrbuddy.cpp:1404-1433 | as the position getter, with the identity rotation when the pose is not live; the copy at src/xrbuddy.cpp:1260-1290 is the same code |
| XrSession.GetActionLinearVelocity | src/core/xrbuddy.cpp:1435-1461 | "head_pose" reads the view's linear velocity and its valid bit; other pose actions read zero with the flag false when not live; the copy at src/xrbuddy.cpp:1291-1318 is the same code |
| XrSession.GetActionAngularVelocity | src/core/xrbuddy.cpp:1463-1490 | "head_pose" reads the view's angular velocity and its valid bit; other pose actions read zero with the flag false when not live; the copy at src/xrbuddy.cpp:1319-1347 is the same code |
| XrSession.UnfocusedReadsNothing | src/core/xrbuddy.cpp:1307-1490 | outside FOCUSED no action other than the head pose reports a valid, changed or tracked value |
| XrSession.HeadPoseIgnoresState | src/core/xrbuddy.cpp:1376-1382 | the head pose is read from the view space whatever the session state and the action map, and always succeeds |
| XrSession.GettersExclusive | src/core/xrbuddy.cpp:1307-1490 | an action name answers at most one of the boolean, float, 2D and pose getters |
| XrSession.ColorSpaceCycles | src/core/xrbuddy.cpp:1497-1503 | the n-th call selects colour space n mod 8, every value from 0 to 7 in turn |
| XrSession.XrBuddy.constructor | src/core/xrbuddy.cpp:986-1067 | the constructor succeeds exactly when the extensions can be listed, OpenGL enable is among them and the platform setup succeeds; the session state starts unknown and not ready |
| XrSession.XrBuddy.Init | src/core/xrbuddy.cpp:1069-1103 | fails at once when the constructor did not succeed, and otherwise succeeds exactly when the setup steps do |
| XrSession.XrBuddy.HandleXrEvent | src/core/xrbuddy.cpp:1119-1201 | one polled event changes the session and the result as the event specification says |
| XrSession.XrBuddy.PollEvents | src/core/xrbuddy.cpp:1109-1205 | draining the queue changes the session and the result as the polling specification says |
| XrSession.XrBuddy.CycleColorSpace | src/core/xrbuddy.cpp:1497-1503 | sets the current colour space, then advances the counter modulo 8 |
| LegacyXr.LegacySwapchainFormat | src/xrbuddy.cpp:741 | the older copy uses the first offered format, with no search |
| LegacyXr.LegacyFormatAgreesWithoutDesired | src/xrbuddy.cpp:741 | when none of the desired formats is offered, the older and newer copies choose the same format |
| LegacyXr.LegacyHandleEvent | src/xrbuddy.cpp:990-1024 | a state change is stored; READY begins and STOPPING ends the session, and the event fails only when that call fails |
| LegacyXr.LegacyPollAgrees | src/xrbuddy.cpp:967-1060 | the older and newer copies store the same states, make the same session calls and stop at the same event |
| LegacyXr.XrBuddy.constructor | src/xrbuddy.cpp:890-930 | succeeds exactly when the extensions can be listed, OpenGL enable is among them and the platform setup succeeds |
| LegacyXr.XrBuddy.Init | src/xrbuddy.cpp:932-965 | fails at once when the constructor did not succeed, and otherwise succeeds exactly when the setup steps do |
| LegacyXr.XrBuddy.HandleXrEvent | src/xrbuddy.cpp:990-1024 | one polled event changes the session and the result as the older event specification says |
| LegacyXr.XrBuddy.PollEvents | src/xrbuddy.cpp:967-1060 | draining the queue changes the session and the result as the older polling specification says |
| LegacyXr.LegacyPollStops | src/xrbuddy.cpp:997-1024 | once a call fails polling returns, and later events no longer change the session |
| Pixels.Pack | src/softwarerenderer.cpp:97 | the shifted and summed channels are cast to a 32-bit unsigned word |
| Pixels.PackRoundTrip | src/softwaresplatrenderer.cpp:13 | with channels in 0 to 255 the word is red in bits 16-23, green in 8-15 and blue in 0-7, and each channel can be read back |
| Pixels.PackInjective | src/softwaresplatrenderer.cpp:13 | distinct colours with channels in 0 to 255 pack to distinct words |
| Pixels.RowMajor | src/softwaresplatrenderer.cpp:13 | pixel (x, y) of the frame lies at word `y * WIDTH + x`, inside the buffer |
| Pixels.RowMajorInjective | src/softwaresplatrenderer.cpp:13 | distinct pixels of the frame occupy distinct words |
| Pixels.RowMajorOnto | src/softwaresplatrenderer.cpp:13 | every word of the buffer belongs to exactly the pixel (i mod w, i div w) |
| SoftwareRendering.FlippedIndex | src/softwarerenderer.cpp:97 | pixel (x, y) lies at word `((HEIGHT - 1) - y) * WIDTH + x`, inside the buffer: the picture is stored upside down |
| SoftwareRendering.FlippedIndexInjective | src/softwarerenderer.cpp:97 | distinct pixels of the frame occupy distinct words |
| SoftwareRendering.Painted | src/softwarerenderer.cpp:92-99 | painting keeps the buffer's length |
| SoftwareRendering.PaintedPixels | src/softwarerenderer.cpp:92-99 | painting changes the painted pixel when it is in the frame, and no other word |
| SoftwareRendering.Thick | src/softwarerenderer.cpp:101-107 | the four writes keep the buffer's length |
| SoftwareRendering.ThickBlock | src/softwarerenderer.cpp:101-107 | a thick pixel paints the 2x2 block from (x, y) to (x + 1, y + 1), each pixel clipped on its own, and nothing else |
| SoftwareRendering.SoftwareRenderer.constructor | src/softwarerenderer.cpp:9-16 | a new renderer has a 0x0 frame and no pixels |
| SoftwareRendering.SoftwareRenderer.SetPixel | src/softwarerenderer.cpp:92-99 | the buffer afterwards is the painted buffer: the packed colour at the flipped word of an in-frame pixel, nothing otherwise |
| SoftwareRendering.SoftwareRenderer.SetThickPixel | src/softwarerenderer.cpp:101-107 | the buffer afterwards is the thick-pixel buffer |
| SoftwareRendering.SoftwareRenderer.ClearPixels | src/softwarerenderer.cpp:109-112 | every word of the buffer is zero |
| SoftwareRendering.SoftwareRenderer.Resize | src/softwarerenderer.cpp:81-90 | a fresh buffer of `newWidth * newHeight` words and the new size |
| SoftwareRendering.SoftwareRenderer.Render | src/softwarerenderer.cpp:44-50 | the buffer is replaced exactly when the viewport size differs from the current size, and the size becomes the viewport's |
| SoftwareSplatRendering.BlockStartWithin | src/softwaresplatrenderer.cpp:68-84 | every position of a 10-pixel block has the block's start as its block start |
| SoftwareSplatRendering.Size | src/softwaresplatrenderer.cpp:65-66 | the `(int)` of a non-negative viewport size is non-negative |
| SoftwareSplatRendering.Painted | src/softwaresplatrenderer.cpp:9-15 | painting keeps the buffer's length |
| SoftwareSplatRendering.PaintedPixels | src/softwaresplatrenderer.cpp:9-15 | painting changes the painted pixel when it is in the frame, and no other word |
| SoftwareSplatRendering.SetPixel | src/softwaresplatrenderer.cpp:9-15 | the buffer afterwards is the painted buffer: the packed colour at the row-major word of an in-frame pixel, nothing otherwise |
| SoftwareSplatRendering.FillBlock | src/softwaresplatrenderer.cpp:76-83 | the 10x10 block from (x0, y0), clipped to the frame, takes the colour and every other pixel keeps its word |
| SoftwareSplatRendering.FillRow | src/softwaresplatrenderer.cpp:70-84 | one band of ten rows takes the colours of its blocks, and the other rows keep theirs |
| SoftwareSplatRendering.FillBlocks | src/softwaresplatrenderer.cpp:68-85 | every pixel of the frame takes the colour of the 10x10 block holding it |
| SoftwareSplatRendering.SoftwareSplatRenderer.constructor | src/softwaresplatrenderer.cpp:17-23 | a new renderer has the all-zero viewport and no pixels |
| SoftwareSplatRendering.SoftwareSplatRenderer.Resize | src/softwaresplatrenderer.cpp:91-99 | a fresh buffer sized for the viewport, and the viewport recorded |
| SoftwareSplatRendering.SoftwareSplatRenderer.Render | src/softwaresplatrenderer.cpp:56-89 | the buffer is replaced exactly when the viewport changed; afterwards every pixel of the frame holds the colour of its block |
| VertexBuffers.Components | src/vertexbuffer.cpp:49-92 | each `Store` overload sets an element size of one to four components |
| VertexBuffers.ElementBytes | src/vertexbuffer.cpp:52-88 | `sizeof` one element is four bytes per component |
| VertexBuffers.FlattenLength | src/vertexbuffer.cpp:52 | a vector of elements of `size` bytes each occupies `size` bytes per element |
| VertexBuffers.FlattenAt | src/vertexbuffer.cpp:52 | byte j of element k lies at offset `size * k + j` of the vector's storage |
| VertexBuffers.BufferObject.constructor | src/vertexbuffer.cpp:11-19 | only the array and element-array targets are accepted; the element size and count start at zero and nothing is stored |
| VertexBuffers.BufferObject.BufferStorage | src/vertexbuffer.cpp:39-47 | the first `numBytes` bytes of the data are appended to what is already stored, in order |
| VertexBuffers.BufferObject.Store | src/vertexbuffer.cpp:49-92 | the elements' bytes are appended, byte j of element k landing at offset `size * k + j` after the old contents; the element size is the type's component count and the element count is the number of elements |
| VertexBuffers.BufferObject.Check | src/vertexbuffer.cpp:94-100 | every check passes exactly when the stored bytes equal the data's bytes at the same offsets |
| VertexBuffers.VertexArrayObject.constructor | src/vertexbuffer.cpp:102-106 | a new vertex array has no attribute buffers and no element buffer |
| VertexBuffers.VertexArrayObject.SetAttribBuffer | src/vertexbuffer.cpp:126-143 | only array buffers are accepted; the location and the buffer are appended side by side |
| VertexBuffers.VertexArrayObject.SetElementBuffer | src/vertexbuffer.cpp:145-156 | only element-array buffers are accepted; the element buffer is replaced |
| DebugRendering.FlatLists | src/core/debugrenderer.cpp:43-49 | the position and colour lists have two entries per queued line; entries 2k and 2k + 1 are line k's end points and its colour twice |
| DebugRendering.AppendSegment | src/core/debugrenderer.cpp:43-49 | queuing a line appends its two positions and its colour twice |
| DebugRendering.AxisSegments | src/core/debugrenderer.cpp:51-64 | three lines from the matrix's translation, coloured red, green and blue, the first along the normalised x column scaled to the axis length |
| DebugRendering.TransformOfTranslation | src/core/debugrenderer.cpp:51-64 | the axes of a pure translation start at that translation |
| DebugRendering.DebugRenderer.constructor | src/core/debugrenderer.cpp:27-30 | a new renderer has no program and no lines |
| DebugRendering.DebugRenderer.Init | src/core/debugrenderer.cpp:32-41 | the program is created whether or not its shaders load, and the result says whether they do |
| DebugRendering.DebugRenderer.Line | src/core/debugrenderer.cpp:43-49 | appends the two end points and the colour twice, keeping the lists in step with the queued lines |
| DebugRendering.DebugRenderer.Transform | src/core/debugrenderer.cpp:51-64 | queues the three axis lines of the matrix, six more positions |
| DebugRendering.DebugRenderer.Render | src/core/debugrenderer.cpp:66-75 | draws two vertices per queued line, the whole position list |
| DebugRendering.DebugRenderer.EndFrame | src/core/debugrenderer.cpp:77-81 | empties both lists |
| DebugDrawing.DebugDraw.constructor | src/debugdraw.cpp:11-13 | the file-level program starts unset and the lists empty |
| DebugDrawing.DebugDraw.Init | src/debugdraw.cpp:15-24 | the program is created whether or not its shaders load, and the result says whether they do |
| DebugDrawing.DebugDraw.Shutdown | src/debugdraw.cpp:26-29 | releases the program and keeps the queued lines |
| DebugDrawing.DebugDraw.Line | src/debugdraw.cpp:31-37 | appends the two end points and the colour twice |
| DebugDrawing.DebugDraw.Transform | src/debugdraw.cpp:39-52 | queues the three axis lines of the matrix, six more positions |
| DebugDrawing.DebugDraw.Render | src/debugdraw.cpp:54-61 | draws two vertices per queued line |
| DebugDrawing.DebugDraw.Clear | src/debugdraw.cpp:63-67 | empties both lists |
| CameraPaths.FrustumPositions | src/camerapathrenderer.cpp:116-124 | each camera pushes sixteen positions, two per frustum line |
| CameraPaths.FrustumLines | src/camerapathrenderer.cpp:104-124 | lines 0 to 3 join the apex to the four far corners; lines 4 to 7 go round the rim, corner 4 back to corner 1 |
| CameraPaths.FrustumLists | src/camerapathrenderer.cpp:96-130 | one frustum list per camera, in camera order |
| CameraPaths.CameraPositionsLayout | src/camerapathrenderer.cpp:96-130 | camera k's sixteen positions occupy entries 16k to 16k + 15 of the position list |
| CameraPaths.CameraPositionsStep | src/camerapathrenderer.cpp:96-124 | each pass of the camera loop appends exactly that camera's sixteen positions |
| CameraPaths.JoinsLayout | src/camerapathrenderer.cpp:166-180 | with several cameras the path has one line per consecutive pair, from camera k's position to camera k + 1's |
| CameraPaths.VertCount | src/camerapathrenderer.cpp:86 | the vertex count is computed in 32-bit unsigned arithmetic, so it stays below 2^32 |
| CameraPaths.VertCountExact | src/camerapathrenderer.cpp:86 | below the 32-bit limit the count is exactly two vertices per line per camera |
| CameraPaths.PathIndexOverrun | src/camerapathrenderer.cpp:156-197 | with more than one camera the as-written path count has two more indices than there are path positions, and the last two name no position |
| CameraPaths.PathIndexOverrunExample | src/camerapathrenderer.cpp:156-197 | two cameras give one path line of two positions, yet four path vertices are counted |
| CameraPaths.PathIndexCount | src/camerapathrenderer.cpp:166-187 | the corrected count equals the number of path positions: two per consecutive pair, or two zero points for one camera or none |
| CameraPaths.PathIndicesInRange | src/camerapathrenderer.cpp:193-197 | with the corrected count every index names a path position and every path position is indexed |
| CameraPaths.IdentityIndices | src/camerapathrenderer.cpp:137-140 | the index loop yields 0, 1, ..., n - 1 |
| CameraPaths.PushFrustumColors | src/camerapathrenderer.cpp:126-129 | one camera appends the frustum colour sixteen times and keeps what was there |
| CameraPaths.CameraPathRenderer.constructor | src/camerapathrenderer.h:43-44 | both overlays start shown, with no program and no geometry |
| CameraPaths.CameraPathRenderer.Init | src/camerapathrenderer.cpp:30-43 | the program is created first; the frusta and the path are built only when its shaders load, and the result says whether they do |
| CameraPaths.CameraPathRenderer.BuildCamerasVao | src/camerapathrenderer.cpp:78-147 | the positions are every camera's frustum lines in order, each with the frustum colour, indexed 0 to the 32-bit vertex count |
| CameraPaths.CameraPathRenderer.BuildPathVao | src/camerapathrenderer.cpp:149-204 | the positions are the path joins (or two zero points), each with the path colour, indexed 0 to the as-written 32-bit count |
| CameraPaths.CameraPathRenderer.SetShowCameras | src/camerapathrenderer.h:26 | sets whether the frusta are drawn |
| CameraPaths.CameraPathRenderer.SetShowPath | src/camerapathrenderer.h:27 | sets whether the path is drawn |
| CameraPaths.CameraPathRenderer.Render | src/camerapathrenderer.cpp:46-76 | nothing is drawn exactly when both overlays are hidden; the frusta are drawn with their vertex count exactly when shown, then the path exactly when shown |

## Left out

- Quat.AsRotationMatrix: numpy-quaternion's `as_rotation_matrix` is foreign code. It is modelled by its published formula, which divides by the squared norm, so the zero quaternion is an error.
- CameraConv.Convert: Python's `float()` is a parameter, `toFloat`, with None for its ValueError. The file is given as its list of lines. `json.dump` and the file writes are not modelled.
- GenBary.PrintArray: Python's float formatting is a parameter, `fmt`.
- Util.LinearToSRGB and Util.SRGBToLinear: `pow` is a parameter. The sRGB curve itself is floating-point numerics.
- Util.SafeNormalize: the vector's length is given together with the square-root facts it satisfies. `sqrt` is not modelled.
- ShaderProgram.Program.LoadVertGeomFrag: loading a file is a parameter, `load`. Compiling, linking and querying shaders are GL calls and are not modelled; only the expansion order and its effect on the sources are.
- Stream: `std::ifstream` and `std::ofstream` are a byte sequence with a read position and a written byte list. Opening a file is an input (`isOpen`, or an `Option`).
- PointCloudFile.PointCloud.ImportPly: narrowing a `double` to a `float` is a parameter, `narrow`, from bit pattern to bit pattern.
- GaussianCloudFile.GaussianCloud.ImportPly: the AABB test reads float bit patterns through a parameter, `toReal`. The box corners, which the source computes in `float`, are exact reals, so a point within float rounding of a face may be kept or dropped differently than in the source.
- ImageFile.Image.Load: libpng is an input, the decoded file (`PngFile`): its signature, size, bit depth, colour type and rows. `file` is None when `fopen` fails.
- TextRendering: the font is given as its glyph metrics. The text is a sequence of characters and `GlyphKey` takes each modulo 256, whereas the source walks the bytes of a `std::string` (its parameter is named `asciiString`): for ASCII text they agree, but a non-ASCII character is several byte lookups in the source and one key in the model. JSON parsing, the font texture, the text program and the GL calls of `Render` are not modelled. Pen positions are `real`.
- Input: SDL events are values of an `Event` datatype, and callbacks are recorded as calls. `SDL_SetRelativeMouseMode` and opening the joystick are not modelled.
- Application: only `ParseArguments` and the camera-index and toggle key handlers are modelled. The Return key handler (`SetFloorMat` and the `vr.json` export, src/app.cpp:419-429) is not modelled, and neither are the `flyCam->SetCameraMat` calls of the n and p handlers (src/app.cpp:398, 407): `NextCameraKey` and `PrevCameraKey` model the new camera index only. `App::Init`, `Render` and `Process` orchestrate renderers, SDL and OpenXR and are left out. `stat(dataDir)` is a parameter, `dirExists`.
- Application.App.NextCameraKey and Application.App.PrevCameraKey: require a camera count other than zero, because the source divides by it, which is undefined behaviour in C++.
- XrSession: OpenXR calls are not modelled; their results are inputs. The action getters take the fields they read as parameters. The union of action states is modelled as separate fields. The static colour-space counter of `CycleColorSpace` is an instance field.
- XrSession.XrBuddy.Init: the `SetColorSpace(REC709)` call, made right after `CreateSession` when the `XR_FB_color_space` extension is listed, is not modelled; the source ignores its result, so it cannot change whether `Init` succeeds. `RenderLayer`, `RenderView` and `CreateDepthTexture` are GPU plumbing and are left out in both copies.
- XrSession.SelectSwapchainFormat: requires a non-empty format list, because the source reads `formats[0]` when no desired format is found.
- LegacyXr.LegacySwapchainFormat: requires a non-empty format list, because the older copy reads `swapchainFormats[0]` unchecked (src/xrbuddy.cpp:741); an empty list is undefined behaviour there.
- SoftwareRendering: `RenderImpl` is not modelled. It fills the frame with 10x10 blocks of `rand()` colours, the same fill `SoftwareSplatRendering.FillBlocks` models with the colours as a parameter. The SDL texture and its upload are not modelled.
- SoftwareSplatRendering.SoftwareSplatRenderer.Render: the viewport's float width and height are converted with `Floor`, which is what the `(int)` cast gives for non-negative values. A negative viewport size is excluded. The first call with an all-zero viewport reaches the source's `assert(rawPixels)` on a null buffer; that case is not modelled.
- Pixels.Pack: a channel outside 0 to 255 overlaps its neighbour. The round trip is proved only for channels in range.
- VertexBuffers.BufferObject.Store: the five overloads are one method over the element type, and the `(int)` cast of the element count is not modelled. `Draw` and `CheckArrays` issue GL calls and debug checks only, and are left out.
- DebugRendering.DebugRenderer.Render and DebugDrawing.DebugDraw.Render: require `Init` to have created the program; drawing before `Init` uses a null program in the source and is not modelled.
- DebugRendering and DebugDrawing: `glm::normalize` is a parameter. The matrix maths of `Render` is not modelled; `Render` returns the vertex count it draws. The statics of `debugdraw.cpp` are the fields of one object.
- CameraPaths: the trigonometry of a camera's frustum and `XformPoint` are one parameter, `frustum`, which gives the five points of a camera's frustum. The `Camera` struct of `camerasconfig.h` is not part of this model beyond its matrix and field of view. GL draws are modelled as (vertex array, count) pairs, and shader loading as `loadOk`.
- CameraPaths.CameraPathRenderer.BuildPathVao: kept as written, with the over-long index count. The corrected count is `CameraPaths.PathIndexCount`.
- Logging (`Log::E`, `Log::printf`) is formatted output only and is not modelled anywhere.
- StateMachines.StateMachine.AddTransition, StateMachines.StateMachine.ChangeState and StateMachines.StateMachine.Process: require the states they look up to be registered. The source's `std::map::at` throws `std::out_of_range` for an unregistered state; in `ChangeState` (without debug logging) the old state's exit callback has already run when the lookup of the new state throws. Exceptions are not modelled.
- Input.Dispatched and Input.InputBuddy.ProcessEvent: require every callback the event calls for to be set. Calling an empty `std::function` throws `std::bad_function_call`, which is not modelled.
- TextRendering.TextRenderer.AddText2D: requires `numRows != 0`. The source's float division `2.0f / numRows` then gives infinity, which `real` cannot represent.
- Application.App.ParseArguments: requires a non-empty last argument. The source calls `dataDir.back()` on it, which is undefined behaviour on an empty string.
- Util.NextCodePointUTF8 and LegacyUtil.NextCodePointUTF8: an invalid lead byte gives advance 1 and code point 0, as in a release build. A debug build stops at `assert(0)` first (src/core/util.cpp:86-91 and the same branch of src/util.cpp).
- SoftwareRendering.SoftwareRenderer.Render: a negative viewport size is excluded. The first call with an all-zero viewport reaches `assert(rawPixels)` on a null buffer; that case is not modelled.
- ImageFile.Image.Load, ImageFile.Image.StorePixels and ImageFile.Image.MultiplyAlpha: the buffer size `width * height * pixelSize` is an unbounded `nat`. In the source `width` and `height` are `uint32_t`, and the product wraps modulo 2^32 for images of 4 GiB or more; such images are not modelled.
- TextRendering.TextKeys: the shared key counter `nextKey` is an unbounded `nat`. In the source it is a `uint32_t` and wraps to 0 after 2^32 texts, which could reuse a key; this is not modelled.
- CameraPaths.CameraPathRenderer.Render: after an `Init` whose shader failed to load, the model still has `hasProgram` set and returns the draw calls, while the source would draw with vertex arrays it never built. `Render` also requires `Init` to have run when either overlay is shown; both start shown, and in the source a call before `Init` dereferences a null program. Drawing after a failed `Init` or before `Init` is not modelled.

## Findings

| source | as written | input that shows it | evidently intended | confidence | as-written member | corrected member |
|---|---|---|---|---|---|---|
| src/core/util.cpp:80-84 | the 4-byte branch builds the code point from bytes 1, 1 and 2 | F0 9F 98 80 (U+1F600) decodes to 0x1F7D8 | bytes 1, 2 and 3, as in section 3 of RFC 3629, giving U+1F600 | not executed | Util.FourByteBranchMisdecodes | Util.DecodeEncodeFixed |
| src/core/xrbuddy.cpp:881-893 | the format search increments `i` in the loop body and in the loop header, so it tests only even indices | formats [0x8C43, GL_RGB16F] choose 0x8C43 | the first desired format present at any index, here GL_RGB16F | not executed | XrSession.EvenSearchMissesOddIndex | XrSession.SwapchainFormatPrefersDesired |
| src/camerapathrenderer.cpp:156 | `numPathVerts` is two per camera, but there is one path line per pair of consecutive cameras | 2 cameras give 2 path positions and 4 indices | one index per path position, 2(n - 1) for n > 1 | not executed | CameraPaths.PathIndexOverrunExample | CameraPaths.PathIndicesInRange |
| src/app.cpp:406 | the 'p' key computes `(cameraIndex - 1) % n` in `size_t`, so from 0 it gives SIZE_MAX mod n | cameraIndex 0 with 3 cameras stays 0 | wrap to n - 1, here 2 | not executed | Application.PrevCameraWrapMisses | Application.CameraCycle |
