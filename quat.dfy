/**
 * The quaternion-to-rotation-matrix conversion used by cameraconv.py (`quat_to_mat`).
 * numpy-quaternion's `as_rotation_matrix` is written out over `real`: it raises
 * ZeroDivisionError for the zero quaternion and otherwise divides by the squared norm,
 * so the result is the rotation of the normalised quaternion.
 */
module Quat {
  import opened Common

  /**
   * Real multiplication under a name. Every product below is written with it, so that two
   * products of equal factors are equal by congruence, and each polynomial identity the
   * proofs need is stated once, over plain reals, in a lemma of its own.
   */
  function Times(a: real, b: real): real { a * b }

  /** A quaternion in scalar-first order, as `np.quaternion(w, x, y, z)`. */
  datatype Quaternion = Quaternion(w: real, x: real, y: real, z: real)
  {
    /** The squared norm (numpy-quaternion's `norm`). */
    function Norm(): real { Times(w, w) + Times(x, x) + Times(y, y) + Times(z, z) }
    function Conj(): Quaternion { Quaternion(w, -x, -y, -z) }
  }

  /** A 3x3 matrix given by rows, as `.tolist()` returns it. */
  datatype Mat3 = Mat3(r0: Vec3, r1: Vec3, r2: Vec3)
  {
    function Col(k: nat): Vec3
      requires k < 3
    {
      if k == 0 then Vec3(r0.x, r1.x, r2.x)
      else if k == 1 then Vec3(r0.y, r1.y, r2.y)
      else Vec3(r0.z, r1.z, r2.z)
    }
  }

  const Identity: Mat3 := Mat3(Vec3(1.0, 0.0, 0.0), Vec3(0.0, 1.0, 0.0), Vec3(0.0, 0.0, 1.0))

  function Dot(a: Vec3, b: Vec3): real { Times(a.x, b.x) + Times(a.y, b.y) + Times(a.z, b.z) }

  function Scale(s: real, v: Vec3): Vec3 { Vec3(Times(s, v.x), Times(s, v.y), Times(s, v.z)) }

  /** Columns of unit length, pairwise orthogonal: Rᵀ·R = I. */
  predicate Orthonormal(m: Mat3)
  {
    Dot(m.Col(0), m.Col(0)) == 1.0 && Dot(m.Col(1), m.Col(1)) == 1.0 && Dot(m.Col(2), m.Col(2)) == 1.0 &&
    Dot(m.Col(0), m.Col(1)) == 0.0 && Dot(m.Col(0), m.Col(2)) == 0.0 && Dot(m.Col(1), m.Col(2)) == 0.0
  }

  /** The entries of the unnormalised matrix, over the components of the quaternion. */
  function Diag(a: real, b: real, c: real, d: real): real
  {
    Times(a, a) + Times(b, b) - Times(c, c) - Times(d, d)
  }

  function Sum(a: real, b: real, c: real, d: real): real { 2.0 * (Times(a, b) + Times(c, d)) }

  function Diff(a: real, b: real, c: real, d: real): real { 2.0 * (Times(a, b) - Times(c, d)) }

  /**
   * The unnormalised matrix: every entry is `n` times the entry of the rotation matrix,
   * where `n` is the squared norm (so the diagonal is n - 2(y²+z²) and so on).
   */
  function Scaled(q: Quaternion): Mat3
  {
    var w, x, y, z := q.w, q.x, q.y, q.z;
    Mat3(
      Vec3(Diag(w, x, y, z), Diff(x, y, z, w), Sum(x, z, y, w)),
      Vec3(Sum(x, y, z, w), Diag(w, y, x, z), Diff(y, z, x, w)),
      Vec3(Diff(x, z, y, w), Sum(y, z, x, w), Diag(w, z, x, y)))
  }

  /**
   * `quaternion.as_rotation_matrix(q)`, entry by entry as numpy-quaternion computes it for a
   * quaternion whose squared norm `n` is not 1; None stands for its ZeroDivisionError.
   */
  function AsRotationMatrix(q: Quaternion): (r: Option<Mat3>)
    ensures r.Some? <==> q.Norm() != 0.0
  {
    var n := q.Norm();
    if n == 0.0 then None
    else
      var w, x, y, z := q.w, q.x, q.y, q.z;
      Some(Mat3(
        Vec3(1.0 - 2.0 * (Times(y, y) + Times(z, z)) / n, Diff(x, y, z, w) / n, Sum(x, z, y, w) / n),
        Vec3(Sum(x, y, z, w) / n, 1.0 - 2.0 * (Times(x, x) + Times(z, z)) / n, Diff(y, z, x, w) / n),
        Vec3(Diff(x, z, y, w) / n, Sum(y, z, x, w) / n, 1.0 - 2.0 * (Times(x, x) + Times(y, y)) / n)))
  }

  /** `quat_to_mat(qx, qy, qz, qw)`: the stored scalar-last order becomes scalar-first. */
  function QuatToMat(qx: real, qy: real, qz: real, qw: real): Option<Mat3>
  {
    AsRotationMatrix(Quaternion(qw, qx, qy, qz))
  }

  // ---------------------------------------------------------------------------------
  // Reference definition: rotating a vector by a quaternion with the Hamilton product.

  function Mul(a: Quaternion, b: Quaternion): Quaternion
  {
    Quaternion(
      Times(a.w, b.w) - Times(a.x, b.x) - Times(a.y, b.y) - Times(a.z, b.z),
      Times(a.w, b.x) + Times(a.x, b.w) + Times(a.y, b.z) - Times(a.z, b.y),
      Times(a.w, b.y) - Times(a.x, b.z) + Times(a.y, b.w) + Times(a.z, b.x),
      Times(a.w, b.z) + Times(a.x, b.y) - Times(a.y, b.x) + Times(a.z, b.w))
  }

  /** `q.Rotate(v)` for a non-zero q: the vector part of q·v·q* divided by |q|². */
  function Rotate(q: Quaternion, v: Vec3): Vec3
    requires q.Norm() != 0.0
  {
    var p := Mul(Mul(q, Quaternion(0.0, v.x, v.y, v.z)), q.Conj());
    Scale(1.0 / q.Norm(), Vec3(p.x, p.y, p.z))
  }

  function Axis(k: nat): Vec3
    requires k < 3
  {
    if k == 0 then Vec3(1.0, 0.0, 0.0) else if k == 1 then Vec3(0.0, 1.0, 0.0) else Vec3(0.0, 0.0, 1.0)
  }

  // ---------------------------------------------------------------------------------
  // Properties of the conversion.

  /** A diagonal entry: 1 - 2(c²+d²)/n is (a²+b²-c²-d²)/n when n = a²+b²+c²+d². */
  lemma DiagonalEntry(a: real, b: real, c: real, d: real, n: real)
    requires n == Times(a, a) + Times(b, b) + Times(c, c) + Times(d, d) && n != 0.0
    ensures 1.0 - 2.0 * (Times(c, c) + Times(d, d)) / n == Times(1.0 / n, Diag(a, b, c, d))
  {
  }

  lemma OffDiagonal(a: real, n: real)
    requires n != 0.0
    ensures a / n == Times(1.0 / n, a)
  {
  }

  /** Row 0 of the matrix is row 0 of the unnormalised one divided by the squared norm. */
  lemma Row0Scaled(q: Quaternion)
    requires q.Norm() != 0.0
    ensures AsRotationMatrix(q).value.r0 == Scale(1.0 / q.Norm(), Scaled(q).r0)
  {
    var n, w, x, y, z := q.Norm(), q.w, q.x, q.y, q.z;
    DiagonalEntry(w, x, y, z, n);
    OffDiagonal(Diff(x, y, z, w), n);
    OffDiagonal(Sum(x, z, y, w), n);
  }

  lemma Row1Scaled(q: Quaternion)
    requires q.Norm() != 0.0
    ensures AsRotationMatrix(q).value.r1 == Scale(1.0 / q.Norm(), Scaled(q).r1)
  {
    var n, w, x, y, z := q.Norm(), q.w, q.x, q.y, q.z;
    OffDiagonal(Sum(x, y, z, w), n);
    DiagonalEntry(w, y, x, z, n);
    OffDiagonal(Diff(y, z, x, w), n);
  }

  lemma Row2Scaled(q: Quaternion)
    requires q.Norm() != 0.0
    ensures AsRotationMatrix(q).value.r2 == Scale(1.0 / q.Norm(), Scaled(q).r2)
  {
    var n, w, x, y, z := q.Norm(), q.w, q.x, q.y, q.z;
    OffDiagonal(Diff(x, z, y, w), n);
    OffDiagonal(Sum(y, z, x, w), n);
    DiagonalEntry(w, z, x, y, n);
  }

  /** The matrix is the unnormalised one divided by the squared norm. */
  lemma AsRotationMatrixIsScaled(q: Quaternion)
    requires q.Norm() != 0.0
    ensures var m, s, inv := AsRotationMatrix(q).value, Scaled(q), 1.0 / q.Norm();
      m == Mat3(Scale(inv, s.r0), Scale(inv, s.r1), Scale(inv, s.r2))
  {
    Row0Scaled(q);
    Row1Scaled(q);
    Row2Scaled(q);
  }

  /** Multiplying a component by 0 or 1, as the product with a unit axis does. */
  lemma TimesUnit(w: real, x: real, y: real, z: real)
    ensures Times(w, 0.0) == 0.0 && Times(x, 0.0) == 0.0 && Times(y, 0.0) == 0.0 && Times(z, 0.0) == 0.0
    ensures Times(w, 1.0) == w && Times(x, 1.0) == x && Times(y, 1.0) == y && Times(z, 1.0) == z
  {
  }

  /** The components of (-x, w, z, -y)·(w, -x, -y, -z), the second product of q·e_0·q*. */
  lemma ConjugateProduct0(w: real, x: real, y: real, z: real)
    ensures Times(-x, w) - Times(w, -x) - Times(z, -y) - Times(-y, -z) == 0.0
    ensures Times(-x, -x) + Times(w, w) + Times(z, -z) - Times(-y, -y) == Diag(w, x, y, z)
    ensures Times(-x, -y) - Times(w, -z) + Times(z, w) + Times(-y, -x) == Sum(x, y, z, w)
    ensures Times(-x, -z) + Times(w, -y) - Times(z, -x) + Times(-y, w) == Diff(x, z, y, w)
  {
  }

  /** The components of (-y, -z, w, x)·(w, -x, -y, -z), the second product of q·e_1·q*. */
  lemma ConjugateProduct1(w: real, x: real, y: real, z: real)
    ensures Times(-y, w) - Times(-z, -x) - Times(w, -y) - Times(x, -z) == 0.0
    ensures Times(-y, -x) + Times(-z, w) + Times(w, -z) - Times(x, -y) == Diff(x, y, z, w)
    ensures Times(-y, -y) - Times(-z, -z) + Times(w, w) + Times(x, -x) == Diag(w, y, x, z)
    ensures Times(-y, -z) + Times(-z, -y) - Times(w, -x) + Times(x, w) == Sum(y, z, x, w)
  {
  }

  /** The components of (-z, y, -x, w)·(w, -x, -y, -z), the second product of q·e_2·q*. */
  lemma ConjugateProduct2(w: real, x: real, y: real, z: real)
    ensures Times(-z, w) - Times(y, -x) - Times(-x, -y) - Times(w, -z) == 0.0
    ensures Times(-z, -x) + Times(y, w) + Times(-x, -z) - Times(w, -y) == Sum(x, z, y, w)
    ensures Times(-z, -y) - Times(y, -z) + Times(-x, w) + Times(w, -x) == Diff(y, z, x, w)
    ensures Times(-z, -z) + Times(y, -y) - Times(-x, -x) + Times(w, w) == Diag(w, z, x, y)
  {
  }

  /** q·e_0·q* is the pure quaternion whose vector part is column 0 of the unnormalised matrix. */
  lemma Column0Conjugation(q: Quaternion)
    ensures Mul(Mul(q, Quaternion(0.0, 1.0, 0.0, 0.0)), q.Conj())
      == Quaternion(0.0, Scaled(q).r0.x, Scaled(q).r1.x, Scaled(q).r2.x)
  {
    var w, x, y, z := q.w, q.x, q.y, q.z;
    TimesUnit(w, x, y, z);
    var a := Mul(q, Quaternion(0.0, 1.0, 0.0, 0.0));
    assert a.w == -x && a.x == w && a.y == z && a.z == -y;
    ConjugateProduct0(w, x, y, z);
  }

  lemma Column1Conjugation(q: Quaternion)
    ensures Mul(Mul(q, Quaternion(0.0, 0.0, 1.0, 0.0)), q.Conj())
      == Quaternion(0.0, Scaled(q).r0.y, Scaled(q).r1.y, Scaled(q).r2.y)
  {
    var w, x, y, z := q.w, q.x, q.y, q.z;
    TimesUnit(w, x, y, z);
    var a := Mul(q, Quaternion(0.0, 0.0, 1.0, 0.0));
    assert a.w == -y && a.x == -z && a.y == w && a.z == x;
    ConjugateProduct1(w, x, y, z);
  }

  lemma Column2Conjugation(q: Quaternion)
    ensures Mul(Mul(q, Quaternion(0.0, 0.0, 0.0, 1.0)), q.Conj())
      == Quaternion(0.0, Scaled(q).r0.z, Scaled(q).r1.z, Scaled(q).r2.z)
  {
    var w, x, y, z := q.w, q.x, q.y, q.z;
    TimesUnit(w, x, y, z);
    var a := Mul(q, Quaternion(0.0, 0.0, 0.0, 1.0));
    assert a.w == -z && a.x == y && a.y == -x && a.z == w;
    ConjugateProduct2(w, x, y, z);
  }

  lemma ScaleColumn(c: real, s: Mat3, k: nat)
    requires k < 3
    ensures Mat3(Scale(c, s.r0), Scale(c, s.r1), Scale(c, s.r2)).Col(k) == Scale(c, s.Col(k))
  {
  }

  /** The identity quaternion (0, 0, 0, 1), stored scalar-last, gives the identity matrix. */
  lemma QuatToMatIdentity()
    ensures QuatToMat(0.0, 0.0, 0.0, 1.0) == Some(Identity)
  {
    var q := Quaternion(1.0, 0.0, 0.0, 0.0);
    TimesUnit(1.0, 0.0, 0.0, 0.0);
    assert q.Norm() == 1.0;
    AsRotationMatrixIsScaled(q);
    assert Scaled(q) == Identity;
    assert 1.0 / q.Norm() == 1.0;
  }

  /** Column k of the matrix is the unit axis e_k rotated by the quaternion (`FromQuat`). */
  lemma ColumnsAreRotatedAxes(q: Quaternion, k: nat)
    requires q.Norm() != 0.0 && k < 3
    ensures AsRotationMatrix(q).value.Col(k) == Rotate(q, Axis(k))
  {
    var m, s, inv := AsRotationMatrix(q).value, Scaled(q), 1.0 / q.Norm();
    AsRotationMatrixIsScaled(q);
    var e := Axis(k);
    var p := Mul(Mul(q, Quaternion(0.0, e.x, e.y, e.z)), q.Conj());
    if k == 0 {
      Column0Conjugation(q);
      assert Vec3(p.x, p.y, p.z) == s.Col(0);
    } else if k == 1 {
      Column1Conjugation(q);
      assert Vec3(p.x, p.y, p.z) == s.Col(1);
    } else {
      Column2Conjugation(q);
      assert Vec3(p.x, p.y, p.z) == s.Col(2);
    }
    assert Rotate(q, e) == Scale(inv, s.Col(k));
    ScaleColumn(inv, s, k);
  }

  // ---------------------------------------------------------------------------------
  // The result is orthonormal.

  /** Columns i and j of the unnormalised matrix: orthogonal when i != j, of squared length n² when i == j. */
  lemma ScaledColumnsOrthogonal(q: Quaternion, i: nat, j: nat)
    requires i < 3 && j < 3
    ensures Dot(Scaled(q).Col(i), Scaled(q).Col(j)) == if i == j then Times(q.Norm(), q.Norm()) else 0.0
  {
    var w, x, y, z := q.w, q.x, q.y, q.z;
    if i == j {
      if i == 0 { ScaledLength0(w, x, y, z); }
      else if i == 1 { ScaledLength1(w, x, y, z); }
      else { ScaledLength2(w, x, y, z); }
    } else {
      var s := Scaled(q);
      if i + j == 1 {
        ScaledProduct01(w, x, y, z);
      } else if i + j == 2 {
        ScaledProduct02(w, x, y, z);
      } else {
        ScaledProduct12(w, x, y, z);
      }
      DotCommutes(s.Col(i), s.Col(j));
    }
  }

  /** One product of two entries, as a product of polynomials in the components. */
  lemma DiagTimesDiag(a: real, b: real, c: real, d: real, e: real, f: real, g: real, h: real)
    ensures Times(Diag(a, b, c, d), Diag(e, f, g, h)) == (a * a + b * b - c * c - d * d) * (e * e + f * f - g * g - h * h)
  {
  }

  lemma SumTimesSum(a: real, b: real, c: real, d: real, e: real, f: real, g: real, h: real)
    ensures Times(Sum(a, b, c, d), Sum(e, f, g, h)) == (2.0 * (a * b + c * d)) * (2.0 * (e * f + g * h))
  {
  }

  lemma DiffTimesDiff(a: real, b: real, c: real, d: real, e: real, f: real, g: real, h: real)
    ensures Times(Diff(a, b, c, d), Diff(e, f, g, h)) == (2.0 * (a * b - c * d)) * (2.0 * (e * f - g * h))
  {
  }

  lemma DiagTimesDiff(a: real, b: real, c: real, d: real, e: real, f: real, g: real, h: real)
    ensures Times(Diag(a, b, c, d), Diff(e, f, g, h)) == (a * a + b * b - c * c - d * d) * (2.0 * (e * f - g * h))
  {
  }

  lemma SumTimesDiag(a: real, b: real, c: real, d: real, e: real, f: real, g: real, h: real)
    ensures Times(Sum(a, b, c, d), Diag(e, f, g, h)) == (2.0 * (a * b + c * d)) * (e * e + f * f - g * g - h * h)
  {
  }

  lemma DiffTimesSum(a: real, b: real, c: real, d: real, e: real, f: real, g: real, h: real)
    ensures Times(Diff(a, b, c, d), Sum(e, f, g, h)) == (2.0 * (a * b - c * d)) * (2.0 * (e * f + g * h))
  {
  }

  lemma DiagTimesSum(a: real, b: real, c: real, d: real, e: real, f: real, g: real, h: real)
    ensures Times(Diag(a, b, c, d), Sum(e, f, g, h)) == (a * a + b * b - c * c - d * d) * (2.0 * (e * f + g * h))
  {
  }

  lemma SumTimesDiff(a: real, b: real, c: real, d: real, e: real, f: real, g: real, h: real)
    ensures Times(Sum(a, b, c, d), Diff(e, f, g, h)) == (2.0 * (a * b + c * d)) * (2.0 * (e * f - g * h))
  {
  }

  lemma DiffTimesDiag(a: real, b: real, c: real, d: real, e: real, f: real, g: real, h: real)
    ensures Times(Diff(a, b, c, d), Diag(e, f, g, h)) == (2.0 * (a * b - c * d)) * (e * e + f * f - g * g - h * h)
  {
  }

  lemma NormTimesNorm(w: real, x: real, y: real, z: real)
    ensures var n := Times(w, w) + Times(x, x) + Times(y, y) + Times(z, z);
      Times(n, n) == (w * w + x * x + y * y + z * z) * (w * w + x * x + y * y + z * z)
  {
  }

  /** Column 0 of the unnormalised matrix has squared length n², n the squared norm. */
  lemma ScaledLength0(w: real, x: real, y: real, z: real)
    ensures var n := Times(w, w) + Times(x, x) + Times(y, y) + Times(z, z);
      Times(Diag(w, x, y, z), Diag(w, x, y, z)) + Times(Sum(x, y, z, w), Sum(x, y, z, w)) + Times(Diff(x, z, y, w), Diff(x, z, y, w)) == Times(n, n)
  {
    DiagTimesDiag(w, x, y, z, w, x, y, z);
    SumTimesSum(x, y, z, w, x, y, z, w);
    DiffTimesDiff(x, z, y, w, x, z, y, w);
    NormTimesNorm(w, x, y, z);
    ScaledLength0Poly(w, x, y, z);
  }

  lemma ScaledLength0Poly(w: real, x: real, y: real, z: real)
    ensures (w * w + x * x - y * y - z * z) * (w * w + x * x - y * y - z * z)
      + (2.0 * (x * y + z * w)) * (2.0 * (x * y + z * w))
      + (2.0 * (x * z - y * w)) * (2.0 * (x * z - y * w))
      == (w * w + x * x + y * y + z * z) * (w * w + x * x + y * y + z * z)
  {
  }

  /** Column 1 of the unnormalised matrix has squared length n², n the squared norm. */
  lemma ScaledLength1(w: real, x: real, y: real, z: real)
    ensures var n := Times(w, w) + Times(x, x) + Times(y, y) + Times(z, z);
      Times(Diff(x, y, z, w), Diff(x, y, z, w)) + Times(Diag(w, y, x, z), Diag(w, y, x, z)) + Times(Sum(y, z, x, w), Sum(y, z, x, w)) == Times(n, n)
  {
    DiffTimesDiff(x, y, z, w, x, y, z, w);
    DiagTimesDiag(w, y, x, z, w, y, x, z);
    SumTimesSum(y, z, x, w, y, z, x, w);
    NormTimesNorm(w, x, y, z);
    ScaledLength1Poly(w, x, y, z);
  }

  lemma ScaledLength1Poly(w: real, x: real, y: real, z: real)
    ensures (2.0 * (x * y - z * w)) * (2.0 * (x * y - z * w))
      + (w * w + y * y - x * x - z * z) * (w * w + y * y - x * x - z * z)
      + (2.0 * (y * z + x * w)) * (2.0 * (y * z + x * w))
      == (w * w + x * x + y * y + z * z) * (w * w + x * x + y * y + z * z)
  {
  }

  /** Column 2 of the unnormalised matrix has squared length n², n the squared norm. */
  lemma ScaledLength2(w: real, x: real, y: real, z: real)
    ensures var n := Times(w, w) + Times(x, x) + Times(y, y) + Times(z, z);
      Times(Sum(x, z, y, w), Sum(x, z, y, w)) + Times(Diff(y, z, x, w), Diff(y, z, x, w)) + Times(Diag(w, z, x, y), Diag(w, z, x, y)) == Times(n, n)
  {
    SumTimesSum(x, z, y, w, x, z, y, w);
    DiffTimesDiff(y, z, x, w, y, z, x, w);
    DiagTimesDiag(w, z, x, y, w, z, x, y);
    NormTimesNorm(w, x, y, z);
    ScaledLength2Poly(w, x, y, z);
  }

  lemma ScaledLength2Poly(w: real, x: real, y: real, z: real)
    ensures (2.0 * (x * z + y * w)) * (2.0 * (x * z + y * w))
      + (2.0 * (y * z - x * w)) * (2.0 * (y * z - x * w))
      + (w * w + z * z - x * x - y * y) * (w * w + z * z - x * x - y * y)
      == (w * w + x * x + y * y + z * z) * (w * w + x * x + y * y + z * z)
  {
  }

  /** Columns 0 and 1 of the unnormalised matrix are orthogonal. */
  lemma ScaledProduct01(w: real, x: real, y: real, z: real)
    ensures Times(Diag(w, x, y, z), Diff(x, y, z, w)) + Times(Sum(x, y, z, w), Diag(w, y, x, z)) + Times(Diff(x, z, y, w), Sum(y, z, x, w)) == 0.0
  {
    DiagTimesDiff(w, x, y, z, x, y, z, w);
    SumTimesDiag(x, y, z, w, w, y, x, z);
    DiffTimesSum(x, z, y, w, y, z, x, w);
    ScaledProduct01Poly(w, x, y, z);
  }

  lemma ScaledProduct01Poly(w: real, x: real, y: real, z: real)
    ensures (w * w + x * x - y * y - z * z) * (2.0 * (x * y - z * w))
      + (2.0 * (x * y + z * w)) * (w * w + y * y - x * x - z * z)
      + (2.0 * (x * z - y * w)) * (2.0 * (y * z + x * w))
      == 0.0
  {
  }

  /** Columns 0 and 2 of the unnormalised matrix are orthogonal. */
  lemma ScaledProduct02(w: real, x: real, y: real, z: real)
    ensures Times(Diag(w, x, y, z), Sum(x, z, y, w)) + Times(Sum(x, y, z, w), Diff(y, z, x, w)) + Times(Diff(x, z, y, w), Diag(w, z, x, y)) == 0.0
  {
    DiagTimesSum(w, x, y, z, x, z, y, w);
    SumTimesDiff(x, y, z, w, y, z, x, w);
    DiffTimesDiag(x, z, y, w, w, z, x, y);
    ScaledProduct02Poly(w, x, y, z);
  }

  lemma ScaledProduct02Poly(w: real, x: real, y: real, z: real)
    ensures (w * w + x * x - y * y - z * z) * (2.0 * (x * z + y * w))
      + (2.0 * (x * y + z * w)) * (2.0 * (y * z - x * w))
      + (2.0 * (x * z - y * w)) * (w * w + z * z - x * x - y * y)
      == 0.0
  {
  }

  /** Columns 1 and 2 of the unnormalised matrix are orthogonal. */
  lemma ScaledProduct12(w: real, x: real, y: real, z: real)
    ensures Times(Diff(x, y, z, w), Sum(x, z, y, w)) + Times(Diag(w, y, x, z), Diff(y, z, x, w)) + Times(Sum(y, z, x, w), Diag(w, z, x, y)) == 0.0
  {
    DiffTimesSum(x, y, z, w, x, z, y, w);
    DiagTimesDiff(w, y, x, z, y, z, x, w);
    SumTimesDiag(y, z, x, w, w, z, x, y);
    ScaledProduct12Poly(w, x, y, z);
  }

  lemma ScaledProduct12Poly(w: real, x: real, y: real, z: real)
    ensures (2.0 * (x * y - z * w)) * (2.0 * (x * z + y * w))
      + (w * w + y * y - x * x - z * z) * (2.0 * (y * z - x * w))
      + (2.0 * (y * z + x * w)) * (w * w + z * z - x * x - y * y)
      == 0.0
  {
  }

  lemma DotCommutes(a: Vec3, b: Vec3)
    ensures Dot(a, b) == Dot(b, a)
  {
    TimesCommutes(a.x, b.x);
    TimesCommutes(a.y, b.y);
    TimesCommutes(a.z, b.z);
  }

  lemma TimesCommutes(a: real, b: real)
    ensures Times(a, b) == Times(b, a)
  {
  }

  /** Scaling both vectors scales their dot product by the product of the factors. */
  lemma DotOfScaled(p: real, r: real, a: Vec3, b: Vec3)
    ensures Dot(Scale(p, a), Scale(r, b)) == Times(Times(p, r), Dot(a, b))
  {
    ProductOfScaled(p, r, a.x, b.x);
    ProductOfScaled(p, r, a.y, b.y);
    ProductOfScaled(p, r, a.z, b.z);
    Distributes(Times(p, r), Times(a.x, b.x), Times(a.y, b.y), Times(a.z, b.z));
  }

  lemma ProductOfScaled(p: real, r: real, u: real, v: real)
    ensures Times(Times(p, u), Times(r, v)) == Times(Times(p, r), Times(u, v))
  {
  }

  lemma Distributes(k: real, a: real, b: real, c: real)
    ensures Times(k, a + b + c) == Times(k, a) + Times(k, b) + Times(k, c)
  {
  }

  lemma InverseSquare(n: real, d: real)
    requires n != 0.0 && d == Times(n, n)
    ensures Times(Times(1.0 / n, 1.0 / n), d) == 1.0
  {
  }

  /** Columns i and j of the matrix: dot product 1 when i == j and 0 otherwise. */
  lemma RotationColumns(q: Quaternion, i: nat, j: nat)
    requires q.Norm() != 0.0 && i < 3 && j < 3
    ensures Dot(AsRotationMatrix(q).value.Col(i), AsRotationMatrix(q).value.Col(j)) == if i == j then 1.0 else 0.0
  {
    var m, s, n := AsRotationMatrix(q).value, Scaled(q), q.Norm();
    var c := 1.0 / n;
    AsRotationMatrixIsScaled(q);
    ScaleColumn(c, s, i);
    ScaleColumn(c, s, j);
    DotOfScaled(c, c, s.Col(i), s.Col(j));
    ScaledColumnsOrthogonal(q, i, j);
    if i == j {
      InverseSquare(n, Dot(s.Col(i), s.Col(j)));
    } else {
      assert Times(Times(c, c), 0.0) == 0.0;
    }
  }

  /** The cross product. */
  function Cross(a: Vec3, b: Vec3): Vec3
  {
    Vec3(Times(a.y, b.z) - Times(a.z, b.y), Times(a.z, b.x) - Times(a.x, b.z), Times(a.x, b.y) - Times(a.y, b.x))
  }

  /** The determinant, expanded along the first row: row 0 dotted with the cross product of rows 1 and 2. */
  function Det(m: Mat3): real
  {
    Dot(m.r0, Cross(m.r1, m.r2))
  }

  /** The unnormalised matrix has determinant n³, n the squared norm. */
  lemma DetScaled(q: Quaternion)
    ensures Det(Scaled(q)) == Times(q.Norm(), Times(q.Norm(), q.Norm()))
  {
    var w, x, y, z := q.w, q.x, q.y, q.z;
    var s, n := Scaled(q), q.Norm();
    ScaledCross0(w, x, y, z);
    ScaledCross1(w, x, y, z);
    ScaledCross2(w, x, y, z);
    assert Cross(s.r1, s.r2) == Scale(n, s.r0);
    DotWithScaled(n, s.r0);
    ScaledRowLength0(w, x, y, z);
  }

  lemma DotWithScaled(n: real, a: Vec3)
    ensures Dot(a, Scale(n, a)) == Times(n, Dot(a, a))
  {
  }

  lemma NormTimesDiag(w: real, x: real, y: real, z: real, a: real, b: real, c: real, d: real)
    ensures var n := Times(w, w) + Times(x, x) + Times(y, y) + Times(z, z);
      Times(n, Diag(a, b, c, d)) == (w * w + x * x + y * y + z * z) * (a * a + b * b - c * c - d * d)
  {
  }

  lemma NormTimesSum(w: real, x: real, y: real, z: real, a: real, b: real, c: real, d: real)
    ensures var n := Times(w, w) + Times(x, x) + Times(y, y) + Times(z, z);
      Times(n, Sum(a, b, c, d)) == (w * w + x * x + y * y + z * z) * (2.0 * (a * b + c * d))
  {
  }

  lemma NormTimesDiff(w: real, x: real, y: real, z: real, a: real, b: real, c: real, d: real)
    ensures var n := Times(w, w) + Times(x, x) + Times(y, y) + Times(z, z);
      Times(n, Diff(a, b, c, d)) == (w * w + x * x + y * y + z * z) * (2.0 * (a * b - c * d))
  {
  }

  /** Entry 0 of the cross product of rows 1 and 2 of the unnormalised matrix is n times entry 0 of row 0. */
  lemma ScaledCross0(w: real, x: real, y: real, z: real)
    ensures var n := Times(w, w) + Times(x, x) + Times(y, y) + Times(z, z);
      Times(Diag(w, y, x, z), Diag(w, z, x, y)) - Times(Diff(y, z, x, w), Sum(y, z, x, w)) == Times(n, Diag(w, x, y, z))
  {
    DiagTimesDiag(w, y, x, z, w, z, x, y);
    DiffTimesSum(y, z, x, w, y, z, x, w);
    NormTimesDiag(w, x, y, z, w, x, y, z);
    ScaledCross0Poly(w, x, y, z);
  }

  lemma ScaledCross0Poly(w: real, x: real, y: real, z: real)
    ensures (w * w + y * y - x * x - z * z) * (w * w + z * z - x * x - y * y)
      - (2.0 * (y * z - x * w)) * (2.0 * (y * z + x * w))
      == (w * w + x * x + y * y + z * z) * (w * w + x * x - y * y - z * z)
  {
  }

  /** Entry 1 of the cross product of rows 1 and 2 of the unnormalised matrix is n times entry 1 of row 0. */
  lemma ScaledCross1(w: real, x: real, y: real, z: real)
    ensures var n := Times(w, w) + Times(x, x) + Times(y, y) + Times(z, z);
      Times(Diff(y, z, x, w), Diff(x, z, y, w)) - Times(Sum(x, y, z, w), Diag(w, z, x, y)) == Times(n, Diff(x, y, z, w))
  {
    DiffTimesDiff(y, z, x, w, x, z, y, w);
    SumTimesDiag(x, y, z, w, w, z, x, y);
    NormTimesDiff(w, x, y, z, x, y, z, w);
    ScaledCross1Poly(w, x, y, z);
  }

  lemma ScaledCross1Poly(w: real, x: real, y: real, z: real)
    ensures (2.0 * (y * z - x * w)) * (2.0 * (x * z - y * w))
      - (2.0 * (x * y + z * w)) * (w * w + z * z - x * x - y * y)
      == (w * w + x * x + y * y + z * z) * (2.0 * (x * y - z * w))
  {
  }

  /** Entry 2 of the cross product of rows 1 and 2 of the unnormalised matrix is n times entry 2 of row 0. */
  lemma ScaledCross2(w: real, x: real, y: real, z: real)
    ensures var n := Times(w, w) + Times(x, x) + Times(y, y) + Times(z, z);
      Times(Sum(x, y, z, w), Sum(y, z, x, w)) - Times(Diag(w, y, x, z), Diff(x, z, y, w)) == Times(n, Sum(x, z, y, w))
  {
    SumTimesSum(x, y, z, w, y, z, x, w);
    DiagTimesDiff(w, y, x, z, x, z, y, w);
    NormTimesSum(w, x, y, z, x, z, y, w);
    ScaledCross2Poly(w, x, y, z);
  }

  lemma ScaledCross2Poly(w: real, x: real, y: real, z: real)
    ensures (2.0 * (x * y + z * w)) * (2.0 * (y * z + x * w))
      - (w * w + y * y - x * x - z * z) * (2.0 * (x * z - y * w))
      == (w * w + x * x + y * y + z * z) * (2.0 * (x * z + y * w))
  {
  }

  /** Row 0 of the unnormalised matrix has squared length n². */
  lemma ScaledRowLength0(w: real, x: real, y: real, z: real)
    ensures var n := Times(w, w) + Times(x, x) + Times(y, y) + Times(z, z);
      Times(Diag(w, x, y, z), Diag(w, x, y, z)) + Times(Diff(x, y, z, w), Diff(x, y, z, w)) + Times(Sum(x, z, y, w), Sum(x, z, y, w)) == Times(n, n)
  {
    DiagTimesDiag(w, x, y, z, w, x, y, z);
    DiffTimesDiff(x, y, z, w, x, y, z, w);
    SumTimesSum(x, z, y, w, x, z, y, w);
    NormTimesNorm(w, x, y, z);
    ScaledRowLength0Poly(w, x, y, z);
  }

  lemma ScaledRowLength0Poly(w: real, x: real, y: real, z: real)
    ensures (w * w + x * x - y * y - z * z) * (w * w + x * x - y * y - z * z)
      + (2.0 * (x * y - z * w)) * (2.0 * (x * y - z * w))
      + (2.0 * (x * z + y * w)) * (2.0 * (x * z + y * w))
      == (w * w + x * x + y * y + z * z) * (w * w + x * x + y * y + z * z)
  {
  }

  /** Scaling both vectors scales their cross product by the product of the factors. */
  lemma CrossOfScaled(c: real, a: Vec3, b: Vec3)
    ensures Cross(Scale(c, a), Scale(c, b)) == Scale(Times(c, c), Cross(a, b))
  {
    ProductOfScaled(c, c, a.y, b.z);
    ProductOfScaled(c, c, a.z, b.y);
    ProductOfScaled(c, c, a.z, b.x);
    ProductOfScaled(c, c, a.x, b.z);
    ProductOfScaled(c, c, a.x, b.y);
    ProductOfScaled(c, c, a.y, b.x);
  }

  /** Scaling every row by c scales the determinant by c³. */
  lemma DetOfScaledRows(c: real, s: Mat3)
    ensures Det(Mat3(Scale(c, s.r0), Scale(c, s.r1), Scale(c, s.r2))) == Times(Times(c, Times(c, c)), Det(s))
  {
    CrossOfScaled(c, s.r1, s.r2);
    DotOfScaled(c, Times(c, c), s.r0, Cross(s.r1, s.r2));
  }

  /** (1/n)³ · n³ == 1 for n != 0. */
  lemma InverseCube(n: real)
    requires n != 0.0
    ensures Times(Times(1.0 / n, Times(1.0 / n, 1.0 / n)), Times(n, Times(n, n))) == 1.0
  {
    assert (1.0 / n) * n == 1.0;
  }

  /**
   * For every non-zero quaternion the matrix has determinant +1: with its orthonormal columns
   * it is a rotation, not a reflection.
   */
  lemma AsRotationMatrixIsProper(q: Quaternion)
    requires q.Norm() != 0.0
    ensures Det(AsRotationMatrix(q).value) == 1.0
  {
    var n := q.Norm();
    AsRotationMatrixIsScaled(q);
    DetOfScaledRows(1.0 / n, Scaled(q));
    DetScaled(q);
    InverseCube(n);
  }

  /** For every non-zero quaternion the columns of the matrix are orthonormal. */
  lemma AsRotationMatrixIsOrthonormal(q: Quaternion)
    requires q.Norm() != 0.0
    ensures Orthonormal(AsRotationMatrix(q).value)
  {
    RotationColumns(q, 0, 0);
    RotationColumns(q, 1, 1);
    RotationColumns(q, 2, 2);
    RotationColumns(q, 0, 1);
    RotationColumns(q, 0, 2);
    RotationColumns(q, 1, 2);
  }
}
