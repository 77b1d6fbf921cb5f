/**
 * gen_bary.py: the uniform barycentric grid of resolution n, and the C++ array declaration
 * the script prints for it. Python floats are modelled as reals.
 */
module GenBary {

  import Decimal

  /** One `(lambda1, lambda2, lambda3)` tuple. */
  datatype Bary = Bary(l1: real, l2: real, l3: real)

  /** The loop indices `(i, j)` of one row: `j` runs over `range(len)`. */
  function RowPairs(i: nat, len: nat): (ps: seq<(nat, nat)>)
    ensures |ps| == len && forall k :: 0 <= k < len ==> ps[k] == (i, k)
  {
    seq(len, k => (i, k))
  }

  /** The index pairs visited by the first `i` iterations of the outer loop. */
  function Rows(n: nat, i: nat): seq<(nat, nat)>
    requires i <= n + 1
  {
    if i == 0 then [] else Rows(n, i - 1) + RowPairs(i - 1, n - (i - 1) + 1)
  }

  /** All index pairs of the generator, in the order the loops visit them. */
  function Pairs(n: nat): seq<(nat, nat)>
  {
    Rows(n, n + 1)
  }

  /** The tuple appended for indices `(i, j)`. */
  function Coord(n: nat, p: (nat, nat)): Bary
    requires n > 0
  {
    var a, b := p.0 as real / n as real, p.1 as real / n as real;
    Bary(1.0 - a - b, a, b)
  }

  function CoordsOf(n: nat, ps: seq<(nat, nat)>): (r: seq<Bary>)
    requires n > 0
    ensures |r| == |ps| && forall k :: 0 <= k < |ps| ==> r[k] == Coord(n, ps[k])
  {
    seq(|ps|, k requires 0 <= k < |ps| => Coord(n, ps[k]))
  }

  /**
   * `generate_uniform_barycentric_coords(n)`: the nested loops append one tuple per index
   * pair. `n == 0` divides by zero in the first iteration, hence the precondition.
   */
  method Generate(n: nat) returns (coords: seq<Bary>)
    requires n > 0
    ensures coords == CoordsOf(n, Pairs(n))
  {
    coords := [];
    var i := 0;
    while i < n + 1
      invariant 0 <= i <= n + 1
      invariant coords == CoordsOf(n, Rows(n, i))
    {
      var j := 0;
      while j < n - i + 1
        invariant 0 <= j <= n - i + 1
        invariant coords == CoordsOf(n, Rows(n, i) + RowPairs(i, j))
      {
        var lambda1 := 1.0 - (i as real / n as real) - (j as real / n as real);
        var lambda2 := i as real / n as real;
        var lambda3 := j as real / n as real;
        assert RowPairs(i, j + 1) == RowPairs(i, j) + [(i, j)];
        coords := coords + [Bary(lambda1, lambda2, lambda3)];
        j := j + 1;
      }
      assert Rows(n, i + 1) == Rows(n, i) + RowPairs(i, n - i + 1);
      i := i + 1;
    }
  }

  // ---------------------------------------------------------------------------------
  // Properties of the grid.

  /** After `i` rows, twice the number of pairs is i(2n + 3 - i). */
  lemma {:induction false} RowsLength(n: nat, i: nat)
    requires i <= n + 1
    ensures 2 * |Rows(n, i)| == i * (2 * n + 3 - i)
  {
    if i > 0 {
      RowsLength(n, i - 1);
      calc {
        2 * |Rows(n, i)|;
        2 * |Rows(n, i - 1)| + 2 * (n - i + 2);
        (i - 1) * (2 * n + 4 - i) + 2 * (n - i + 2);
        { assert (i - 1) * (2 * n + 4 - i) == i * (2 * n + 4 - i) - (2 * n + 4 - i); }
        i * (2 * n + 3 - i);
      }
    }
  }

  /** The generator returns exactly (n+1)(n+2)/2 tuples. */
  lemma PairsCount(n: nat)
    ensures |Pairs(n)| == (n + 1) * (n + 2) / 2
  {
    RowsLength(n, n + 1);
    assert (n + 1) * (2 * n + 3 - (n + 1)) == (n + 1) * (n + 2);
  }

  /** A pair is visited in the first `i` rows exactly when its row is below `i` and it fits the triangle. */
  lemma {:induction false} RowsMembership(n: nat, i: nat, a: nat, b: nat)
    requires i <= n + 1
    ensures (a, b) in Rows(n, i) <==> a < i && a + b <= n
  {
    if i > 0 {
      RowsMembership(n, i - 1, a, b);
      var row := RowPairs(i - 1, n - (i - 1) + 1);
      assert (a, b) in row <==> a == i - 1 && b <= n - (i - 1) by {
        if a == i - 1 && b <= n - (i - 1) {
          assert row[b] == (a, b);
        }
      }
    }
  }

  /** The loops visit exactly the pairs with i + j <= n. */
  lemma PairsMembership(n: nat, a: nat, b: nat)
    ensures (a, b) in Pairs(n) <==> a + b <= n
  {
    RowsMembership(n, n + 1, a, b);
  }

  predicate LexLess(p: (nat, nat), q: (nat, nat))
  {
    p.0 < q.0 || (p.0 == q.0 && p.1 < q.1)
  }

  /** Each pair comes strictly after the previous one in (i, j) order. */
  lemma {:induction false} RowsAscending(n: nat, i: nat, k: nat)
    requires i <= n + 1 && k + 1 < |Rows(n, i)|
    ensures LexLess(Rows(n, i)[k], Rows(n, i)[k + 1])
  {
    var prev := Rows(n, i - 1);
    var row := RowPairs(i - 1, n - (i - 1) + 1);
    assert Rows(n, i) == prev + row;
    if k + 1 < |prev| {
      RowsAscending(n, i - 1, k);
    } else if k + 1 == |prev| {
      RowsLastRow(n, i - 1);
    }
  }

  lemma {:induction false} RowsLastRow(n: nat, i: nat)
    requires i <= n + 1 && |Rows(n, i)| > 0
    ensures Rows(n, i)[|Rows(n, i)| - 1].0 == i - 1
  {
  }

  lemma PairsAscending(n: nat, k: nat)
    requires k + 1 < |Pairs(n)|
    ensures LexLess(Pairs(n)[k], Pairs(n)[k + 1])
  {
    RowsAscending(n, n + 1, k);
  }

  /** Every tuple is a convex combination: components in [0, 1] summing to exactly 1. */
  lemma CoordIsBarycentric(n: nat, a: nat, b: nat)
    requires n > 0 && a + b <= n
    ensures var c := Coord(n, (a, b));
      c.l1 + c.l2 + c.l3 == 1.0
      && 0.0 <= c.l1 <= 1.0 && 0.0 <= c.l2 <= 1.0 && 0.0 <= c.l3 <= 1.0
  {
    var nn := n as real;
    var x, y := a as real / nn, b as real / nn;
    UnitFraction(a as real, nn);
    UnitFraction(b as real, nn);
    UnitFraction((a + b) as real, nn);
    assert x + y == (a + b) as real / nn;
  }

  lemma UnitFraction(p: real, q: real)
    requires 0.0 <= p <= q && q > 0.0
    ensures 0.0 <= p / q <= 1.0
  {
    assert (p / q) * q == p;
  }

  /** Every generated tuple is barycentric. */
  lemma GeneratedAreBarycentric(n: nat, k: nat)
    requires n > 0 && k < |Pairs(n)|
    ensures var c := CoordsOf(n, Pairs(n))[k];
      c.l1 + c.l2 + c.l3 == 1.0
      && 0.0 <= c.l1 <= 1.0 && 0.0 <= c.l2 <= 1.0 && 0.0 <= c.l3 <= 1.0
  {
    var p := Pairs(n)[k];
    PairsMembership(n, p.0, p.1);
    CoordIsBarycentric(n, p.0, p.1);
  }

  // ---------------------------------------------------------------------------------
  // The printing driver.

  /** The script's output: the declaration line, one initializer per tuple, the closing line. */
  method PrintArray(coords: seq<Bary>, fmt: real -> string) returns (lines: seq<string>)
    ensures |lines| == |coords| + 2
    ensures lines[0] == "std::array<glm::vec3, " + Decimal.NatToString(|coords|) + "> baryVec = {"
    ensures forall k :: 0 <= k < |coords| ==> lines[k + 1] == Entry(coords[k], fmt)
    ensures lines[|coords| + 1] == "};"
  {
    lines := ["std::array<glm::vec3, " + Decimal.NatToString(|coords|) + "> baryVec = {"];
    var k := 0;
    while k < |coords|
      invariant 0 <= k <= |coords| && |lines| == k + 1
      invariant lines[0] == "std::array<glm::vec3, " + Decimal.NatToString(|coords|) + "> baryVec = {"
      invariant forall m :: 0 <= m < k ==> lines[m + 1] == Entry(coords[m], fmt)
    {
      lines := lines + [Entry(coords[k], fmt)];
      k := k + 1;
    }
    lines := lines + ["};"];
  }

  /** One initializer line; `fmt` stands for Python's float formatting. */
  function Entry(c: Bary, fmt: real -> string): string
  {
    "    glm::vec3(" + fmt(c.l1) + "f, " + fmt(c.l2) + "f, " + fmt(c.l3) + "f),"
  }

  /** The resolution the script uses gives a 351-element array. */
  lemma ScriptArraySize()
    ensures |CoordsOf(25, Pairs(25))| == 351
    ensures Decimal.NatToString(351) == "351"
  {
    PairsCount(25);
  }
}
