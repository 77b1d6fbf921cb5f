/**
 * src/core/program.cpp: the shader-source macro expander and the CPU-side state of a
 * `Program` (its macro list, debug name, handles and variable tables).
 *
 * `AddMacro(key, value)` registers the key wrapped in a C comment (see `Token`); `ExpandMacros` replaces, macro
 * by macro, every occurrence of the token, leftmost first, resuming the search just past
 * the inserted value.
 */
module ShaderProgram {

  import opened Common

  // ---------------------------------------------------------------------------------
  // `std::string::find` and the replacement loop.

  /** `tok` occurs in `s` at index `i`. */
  predicate OccursAt(s: string, tok: string, i: int)
  {
    0 <= i && i + |tok| <= |s| && s[i..i + |tok|] == tok
  }

  /** `s.find(tok, pos)`: the first occurrence at or after `pos`, or None for `npos`. */
  function Find(s: string, tok: string, pos: nat): (r: Option<nat>)
    decreases |s| - pos
    ensures r.Some? ==> pos <= r.value && r.value + |tok| <= |s|
  {
    if pos + |tok| > |s| then None
    else if s[pos..pos + |tok|] == tok then Some(pos)
    else Find(s, tok, pos + 1)
  }

  /** `Find` returns the leftmost occurrence at or after `pos`, and None only when there is none. */
  lemma {:induction false} FindLeftmost(s: string, tok: string, pos: nat)
    decreases |s| - pos
    ensures var r := Find(s, tok, pos);
      (r.Some? ==> OccursAt(s, tok, r.value) && forall j :: pos <= j < r.value ==> !OccursAt(s, tok, j))
      && (r.None? ==> forall j :: pos <= j ==> !OccursAt(s, tok, j))
  {
    if pos + |tok| <= |s| && s[pos..pos + |tok|] != tok {
      FindLeftmost(s, tok, pos + 1);
    }
  }

  /**
   * The text after replacing every occurrence of `tok`, leftmost first and without
   * overlap; the inserted `val` is never searched again.
   */
  function ReplaceAll(s: string, tok: string, val: string): string
    requires |tok| > 0
    decreases |s|
  {
    match Find(s, tok, 0)
    case None => s
    case Some(i) => s[..i] + val + ReplaceAll(s[i + |tok|..], tok, val)
  }

  /** All macros applied in list order, each to the output of the ones before it. */
  function ExpandAll(macros: seq<(string, string)>, s: string): string
    requires forall k :: 0 <= k < |macros| ==> |macros[k].0| > 0
  {
    if macros == [] then s else ExpandAll(macros[1..], ReplaceAll(s, macros[0].0, macros[0].1))
  }

  /** A search from `pos` finds what a search of the suffix from 0 finds, shifted by `pos`. */
  lemma {:induction false} FindShift(s: string, tok: string, pos: nat, from: nat)
    requires pos <= from && pos <= |s|
    ensures Find(s, tok, from) == ShiftBy(Find(s[pos..], tok, from - pos), pos)
    decreases |s| - from
  {
    var t := s[pos..];
    if from + |tok| <= |s| {
      assert s[from..from + |tok|] == t[from - pos..from - pos + |tok|];
      FindShift(s, tok, pos, from + 1);
    }
  }

  function ShiftBy(r: Option<nat>, d: nat): Option<nat>
  {
    if r.None? then None else Some(r.value + d)
  }

  /**
   * `ExpandMacros`: for each macro in turn, the inner loop finds the next occurrence from
   * `pos`, replaces it, and moves `pos` past the inserted value. Tokens are non-empty
   * (every token `AddMacro` builds is); an empty one would never advance.
   */
  method ExpandMacros(macros: seq<(string, string)>, source: string) returns (result: string)
    requires forall k :: 0 <= k < |macros| ==> |macros[k].0| > 0
    ensures result == ExpandAll(macros, source)
  {
    result := source;
    var m := 0;
    while m < |macros|
      invariant 0 <= m <= |macros|
      invariant ExpandAll(macros, source) == ExpandAll(macros[m..], result)
    {
      var tok, val := macros[m].0, macros[m].1;
      var pos: nat := 0;
      ghost var expanded := ReplaceAll(result, tok, val);
      while true
        invariant pos <= |result|
        invariant expanded == result[..pos] + ReplaceAll(result[pos..], tok, val)
        decreases |result| - pos
      {
        var found := Find(result, tok, pos);
        FindShift(result, tok, pos, pos);
        if found.None? {
          break;
        }
        var p := found.value;
        assert Find(result[pos..], tok, 0) == Some(p - pos);
        ReplaceStep(result, tok, val, pos, p);
        result := result[..p] + val + result[p + |tok|..];
        pos := p + |val|;
      }
      assert result[pos..] == ReplaceAll(result[pos..], tok, val);
      assert result == expanded;
      assert macros[m..][1..] == macros[m + 1..];
      m := m + 1;
    }
    assert macros[m..] == [];
  }

  /** One turn of the inner loop keeps the expansion of the whole text unchanged. */
  lemma {:induction false} ReplaceStep(s: string, tok: string, val: string, pos: nat, p: nat)
    requires |tok| > 0 && pos <= p && p + |tok| <= |s|
    requires Find(s[pos..], tok, 0) == Some(p - pos)
    ensures var t := s[..p] + val + s[p + |tok|..];
      s[..pos] + ReplaceAll(s[pos..], tok, val) == t[..p + |val|] + ReplaceAll(t[p + |val|..], tok, val)
  {
    var rest := ReplaceAll(s[p + |tok|..], tok, val);
    ReplaceFirst(s, tok, val, pos, p);
    SpliceParts(s, val, pos, p, |tok|, rest);
  }

  lemma {:induction false} ReplaceFirst(s: string, tok: string, val: string, pos: nat, p: nat)
    requires |tok| > 0 && pos <= p && p + |tok| <= |s|
    requires Find(s[pos..], tok, 0) == Some(p - pos)
    ensures ReplaceAll(s[pos..], tok, val) == s[pos..p] + val + ReplaceAll(s[p + |tok|..], tok, val)
  {
    var u := s[pos..];
    ReplaceUnfold(u, tok, val, p - pos);
    assert u[p - pos + |tok|..] == s[p + |tok|..];
    assert u[..p - pos] == s[pos..p];
  }

  lemma {:induction false} ReplaceUnfold(u: string, tok: string, val: string, q: nat)
    requires |tok| > 0 && Find(u, tok, 0) == Some(q)
    ensures q + |tok| <= |u|
    ensures ReplaceAll(u, tok, val) == u[..q] + val + ReplaceAll(u[q + |tok|..], tok, val)
  {
  }

  lemma {:induction false} SpliceParts(s: string, val: string, pos: nat, p: nat, n: nat, rest: string)
    requires pos <= p && p + n <= |s|
    ensures var t := s[..p] + val + s[p + n..];
      t[p + |val|..] == s[p + n..] && s[..pos] + (s[pos..p] + val + rest) == t[..p + |val|] + rest
  {
    var t := s[..p] + val + s[p + n..];
    assert t[..p + |val|] == s[..p] + val;
    assert s[..pos] + s[pos..p] == s[..p];
  }

  // ---------------------------------------------------------------------------------
  // Properties of the expansion.

  /** A macro whose token does not occur leaves the text unchanged. */
  lemma {:induction false} AbsentTokenLeavesText(s: string, tok: string, val: string)
    requires |tok| > 0 && forall j :: !OccursAt(s, tok, j)
    ensures ReplaceAll(s, tok, val) == s
  {
    FindLeftmost(s, tok, 0);
  }

  /** The result starts with the text before the first occurrence followed by the value. */
  lemma {:induction false} FirstOccurrenceReplaced(s: string, tok: string, val: string, i: nat)
    requires |tok| > 0 && OccursAt(s, tok, i) && forall j :: 0 <= j < i ==> !OccursAt(s, tok, j)
    ensures StartsWith(ReplaceAll(s, tok, val), s[..i] + val)
  {
    ValueNotRescanned(s, tok, val, i);
    var r := ReplaceAll(s, tok, val);
    assert r[..|s[..i] + val|] == s[..i] + val;
  }

  /**
   * After the first occurrence is replaced, the search goes on in the text after that
   * occurrence, never in the inserted value: a value containing its own token is inserted once.
   */
  lemma {:induction false} ValueNotRescanned(s: string, tok: string, val: string, i: nat)
    requires |tok| > 0 && OccursAt(s, tok, i) && forall j :: 0 <= j < i ==> !OccursAt(s, tok, j)
    ensures ReplaceAll(s, tok, val) == s[..i] + val + ReplaceAll(s[i + |tok|..], tok, val)
  {
    FindLeftmost(s, tok, 0);
    var r := Find(s, tok, 0);
    assert r.Some?;
    assert r.value == i;
  }

  /** Replacing a token by itself changes nothing. */
  lemma {:induction false} ReplaceBySelf(s: string, tok: string)
    requires |tok| > 0
    ensures ReplaceAll(s, tok, tok) == s
    decreases |s|
  {
    match Find(s, tok, 0)
    case None =>
    case Some(i) =>
      FindLeftmost(s, tok, 0);
      ReplaceBySelf(s[i + |tok|..], tok);
      assert s[..i] + tok + s[i + |tok|..] == s;
  }

  /** Expanding with a concatenation of lists is expanding with the first, then the second. */
  lemma {:induction false} ExpandAllAppend(m1: seq<(string, string)>, m2: seq<(string, string)>, s: string)
    requires forall k :: 0 <= k < |m1| ==> |m1[k].0| > 0
    requires forall k :: 0 <= k < |m2| ==> |m2[k].0| > 0
    ensures forall k :: 0 <= k < |m1 + m2| ==> |(m1 + m2)[k].0| > 0
    ensures ExpandAll(m1 + m2, s) == ExpandAll(m2, ExpandAll(m1, s))
    decreases |m1|
  {
    if m1 == [] {
      assert m1 + m2 == m2;
    } else {
      assert (m1 + m2)[0] == m1[0];
      assert (m1 + m2)[1..] == m1[1..] + m2;
      ExpandAllAppend(m1[1..], m2, ReplaceAll(s, m1[0].0, m1[0].1));
    }
  }

  // ---------------------------------------------------------------------------------
  // The `Program` object.

  /** The token `AddMacro` builds: the key wrapped in a C comment and double percent signs. */
  function Token(key: string): (tok: string)
    ensures |tok| == |key| + 8
  {
    "/*%%" + key + "%%*/"
  }

  /** Distinct keys give distinct tokens. */
  lemma TokenInjective(a: string, b: string)
    ensures Token(a) == Token(b) ==> a == b
  {
    if Token(a) == Token(b) {
      assert a == Token(a)[4..|a| + 4];
    }
  }

  /** The header each platform registers first. */
  function HeaderValue(android: bool): string
  {
    if android then "#version 320 es\nprecision highp float;" else "#version 460"
  }

  /** A handle after `Delete`: released and zeroed when positive, untouched otherwise. */
  function Released(handle: int): (r: int)
    ensures r <= 0 && (handle > 0 <==> r != handle)
  {
    if handle > 0 then 0 else handle
  }

  /** `Variable`: one active uniform or attribute. */
  datatype Variable = Variable(size: int, glType: bv32, loc: int)

  class Program {
    var program: int
    var vertShader: int
    var geomShader: int
    var fragShader: int
    var computeShader: int
    var uniforms: map<string, Variable>
    var attribs: map<string, Variable>
    var macros: seq<(string, string)>
    var debugName: string

    /** Every registered macro was built by `AddMacro`, so its token is non-empty. */
    ghost predicate Valid()
      reads this`macros
    {
      forall k :: 0 <= k < |macros| ==> exists key :: macros[k].0 == Token(key)
    }

    /**
     * The constructor zeroes the program and shader handles and registers HEADER before
     * anything else. `computeShader` is not in the initialiser list, so its value is
     * whatever the allocation held (`garbage`).
     */
    constructor (android: bool, garbage: int)
      ensures Valid()
      ensures program == 0 && vertShader == 0 && geomShader == 0 && fragShader == 0
      ensures computeShader == garbage
      ensures macros == [(Token("HEADER"), HeaderValue(android))]
      ensures uniforms == map[] && attribs == map[] && debugName == ""
    {
      program, vertShader, geomShader, fragShader := 0, 0, 0, 0;
      computeShader := garbage;
      uniforms, attribs, debugName := map[], map[], "";
      macros := [(Token("HEADER"), HeaderValue(android))];
    }

    /** `AddMacro` appends one (token, value) pair; nothing is removed or overwritten. */
    method AddMacro(key: string, value: string)
      requires Valid()
      modifies this`macros
      ensures Valid()
      ensures macros == old(macros) + [(Token(key), value)]
    {
      macros := macros + [(Token(key), value)];
    }

    /**
     * `Delete`: every positive handle is released and zeroed (a handle that is zero or
     * negative is left as it is), and the debug name and both tables are emptied.
     */
    method Delete()
      modifies this`program, this`vertShader, this`geomShader, this`fragShader, this`computeShader,
               this`uniforms, this`attribs, this`debugName
      ensures program == Released(old(program)) && vertShader == Released(old(vertShader))
      ensures geomShader == Released(old(geomShader)) && fragShader == Released(old(fragShader))
      ensures computeShader == Released(old(computeShader))
      ensures program <= 0 && vertShader <= 0 && geomShader <= 0 && fragShader <= 0 && computeShader <= 0
      ensures uniforms == map[] && attribs == map[] && debugName == ""
    {
      debugName := "";
      if vertShader > 0 { vertShader := 0; }
      if geomShader > 0 { geomShader := 0; }
      if fragShader > 0 { fragShader := 0; }
      if computeShader > 0 { computeShader := 0; }
      if program > 0 { program := 0; }
      uniforms := map[];
      attribs := map[];
    }

    /**
     * The source handling of `LoadVertGeomFrag`, up to the compiler: after `Delete` the
     * debug name is set, each file is loaded (`load` stands for `LoadFile`) and expanded.
     * The geometry source is expanded once after loading and once more just before it is
     * compiled. `sources` are the texts handed to the compiler, in compile order.
     */
    method LoadVertGeomFrag(vertFilename: string, geomFilename: string, fragFilename: string,
                            load: string -> Option<string>) returns (ok: bool, sources: seq<string>)
      requires Valid()
      modifies this`program, this`vertShader, this`geomShader, this`fragShader, this`computeShader,
               this`uniforms, this`attribs, this`debugName
      ensures macros == old(macros) && Valid()
      ensures debugName == if geomFilename != "" then vertFilename + " + " + geomFilename + " + " + fragFilename
                           else vertFilename + " + " + fragFilename
      ensures ok <==> load(vertFilename).Some? && load(fragFilename).Some?
                      && (geomFilename != "" ==> load(geomFilename).Some?)
      ensures ok && geomFilename == "" ==>
        sources == [Expand(load(vertFilename).value), Expand(load(fragFilename).value)]
      ensures ok && geomFilename != "" ==>
        sources == [Expand(load(vertFilename).value), Expand(Expand(load(geomFilename).value)),
                    Expand(load(fragFilename).value)]
    {
      Delete();
      var useGeomShader := geomFilename != "";
      if useGeomShader {
        debugName := vertFilename + " + " + geomFilename + " + " + fragFilename;
      } else {
        debugName := vertFilename + " + " + fragFilename;
      }
      sources := [];
      var vertSource := load(vertFilename);
      if vertSource.None? {
        return false, sources;
      }
      var vert := ExpandMacros(macros, vertSource.value);
      var geom := "";
      if useGeomShader {
        var geomSource := load(geomFilename);
        if geomSource.None? {
          return false, sources;
        }
        geom := ExpandMacros(macros, geomSource.value);
      }
      var fragSource := load(fragFilename);
      if fragSource.None? {
        return false, sources;
      }
      var frag := ExpandMacros(macros, fragSource.value);
      sources := [vert];
      if useGeomShader {
        geom := ExpandMacros(macros, geom);
        sources := sources + [geom];
      }
      sources := sources + [frag];
      ok := true;
    }

    /** The expansion with this program's macros. */
    function Expand(s: string): string
      reads this`macros
      requires Valid()
    {
      ExpandAll(macros, s)
    }
  }
}
