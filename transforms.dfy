/** The transformation matrices GLMatrix builds: translation, scaling, the
    axis-angle rotation, and the orthographic and frustum projections. Each
    is defined here entry by entry, independently of the sequence of `set`
    calls that builds it in the class; a `...BySets` lemma shows that the
    calls produce it, and the other lemmas say what it does to points.

    All matrices are n-by-n and column-major as in module Matrices, so
    t[c][r] is the entry at row r, column c. Points are homogeneous column
    vectors [x, y, z, w]. */
module Transforms {
  import opened Matrices

  // ---------------------------------------------------------------------------
  // Translation

  /** The identity with (x, y, z) in rows 0..2 of column 3. */
  function Translation(n: int, x: real, y: real, z: real): (t: Matrix)
    requires 4 <= n
    ensures IsSquare(n, t)
  {
    seq(n, c requires 0 <= c < n => seq(n, r requires 0 <= r < n =>
      if c == 3 && r < 3 then [x, y, z][r] else if r == c then 1.0 else 0.0))
  }

  /** The three `set` calls of `translate` on a fresh identity build it. */
  lemma TranslationBySets(n: int, x: real, y: real, z: real)
    requires 4 <= n
    ensures Put(n, Put(n, Put(n, Identity(n), 0, 3, x), 1, 3, y), 2, 3, z) == Translation(n, x, y, z)
  {
    Extensionality(n, Put(n, Put(n, Put(n, Identity(n), 0, 3, x), 1, 3, y), 2, 3, z), Translation(n, x, y, z));
  }

  /** One entry of Translation * a. */
  lemma TranslateEntry(n: int, x: real, y: real, z: real, a: Matrix, c: int, r: int)
    requires 4 <= n && IsSquare(n, a) && 0 <= c < n && 0 <= r < n
    ensures Product(n, Translation(n, x, y, z), a)[c][r] ==
      if r < 3 then a[c][r] + [x, y, z][r] * a[c][3] else a[c][r]
  {
    var t := Translation(n, x, y, z);
    if r < 3 {
      assert forall j :: 0 <= j < n ==> t[j][r] == if j == r then 1.0 else if j == 3 then [x, y, z][r] else 0.0;
      DotShearRow(n, t, a, r, c, n, 3, [x, y, z][r]);
    } else {
      assert forall j :: 0 <= j < n ==> t[j][r] == if j == r then 1.0 else 0.0;
      DotDiagonalRow(n, t, a, r, c, n, 1.0);
    }
  }

  /** Translation * a adds x, y and z times row 3 of a to rows 0, 1 and 2 of
      a and keeps every other row. */
  lemma TranslateRows(n: int, x: real, y: real, z: real, a: Matrix)
    requires 4 <= n && IsSquare(n, a)
    ensures forall c, r :: 0 <= c < n && 0 <= r < n ==>
      Product(n, Translation(n, x, y, z), a)[c][r] ==
        if r < 3 then a[c][r] + [x, y, z][r] * a[c][3] else a[c][r]
  {
    forall c, r | 0 <= c < n && 0 <= r < n
      ensures Product(n, Translation(n, x, y, z), a)[c][r] ==
        if r < 3 then a[c][r] + [x, y, z][r] * a[c][3] else a[c][r]
    {
      TranslateEntry(n, x, y, z, a, c, r);
    }
  }

  /** The 4-by-4 translation moves every point by (x, y, z). */
  lemma TranslationMovesPoints(x: real, y: real, z: real, px: real, py: real, pz: real)
    ensures Apply(4, Translation(4, x, y, z), [px, py, pz, 1.0]) == [px + x, py + y, pz + z, 1.0]
  {
    var w := [px + x, py + y, pz + z, 1.0];
    forall r | 0 <= r < 4
      ensures Apply(4, Translation(4, x, y, z), [px, py, pz, 1.0])[r] == w[r]
    {
      RowTimes4(Translation(4, x, y, z), [px, py, pz, 1.0], r);
    }
  }

  /** Translating the identity puts (x, y, z, 1) in column 3 and keeps the
      other columns of the identity. */
  lemma TranslatedIdentity(x: real, y: real, z: real)
    ensures Product(4, Translation(4, x, y, z), Identity(4))[3] == [x, y, z, 1.0]
    ensures forall c :: 0 <= c < 3 ==> Product(4, Translation(4, x, y, z), Identity(4))[c] == Identity(4)[c]
  {
    IdentityRightNeutral(4, Translation(4, x, y, z));
    assert Translation(4, x, y, z)[3] == [x, y, z, 1.0];
  }

  // ---------------------------------------------------------------------------
  // Scaling

  /** The identity with x, y and z on the first three diagonal entries. */
  function Scaling(n: int, x: real, y: real, z: real): (t: Matrix)
    requires 3 <= n
    ensures IsSquare(n, t)
  {
    seq(n, c requires 0 <= c < n => seq(n, r requires 0 <= r < n =>
      if r == c && r < 3 then [x, y, z][r] else if r == c then 1.0 else 0.0))
  }

  /** The three `set` calls of `scale` on a fresh identity build it. */
  lemma ScalingBySets(n: int, x: real, y: real, z: real)
    requires 3 <= n
    ensures Put(n, Put(n, Put(n, Identity(n), 0, 0, x), 1, 1, y), 2, 2, z) == Scaling(n, x, y, z)
  {
    Extensionality(n, Put(n, Put(n, Put(n, Identity(n), 0, 0, x), 1, 1, y), 2, 2, z), Scaling(n, x, y, z));
  }

  /** One entry of Scaling * a. */
  lemma ScaleEntry(n: int, x: real, y: real, z: real, a: Matrix, c: int, r: int)
    requires 3 <= n && IsSquare(n, a) && 0 <= c < n && 0 <= r < n
    ensures Product(n, Scaling(n, x, y, z), a)[c][r] == if r < 3 then [x, y, z][r] * a[c][r] else a[c][r]
  {
    var t, p := Scaling(n, x, y, z), if r < 3 then [x, y, z][r] else 1.0;
    assert forall j :: 0 <= j < n ==> t[j][r] == if j == r then p else 0.0;
    DotDiagonalRow(n, t, a, r, c, n, p);
  }

  /** Scaling * a multiplies rows 0, 1 and 2 of a by x, y and z and keeps
      every other row. */
  lemma ScaleRows(n: int, x: real, y: real, z: real, a: Matrix)
    requires 3 <= n && IsSquare(n, a)
    ensures forall c, r :: 0 <= c < n && 0 <= r < n ==>
      Product(n, Scaling(n, x, y, z), a)[c][r] == if r < 3 then [x, y, z][r] * a[c][r] else a[c][r]
  {
    forall c, r | 0 <= c < n && 0 <= r < n
      ensures Product(n, Scaling(n, x, y, z), a)[c][r] == if r < 3 then [x, y, z][r] * a[c][r] else a[c][r]
    {
      ScaleEntry(n, x, y, z, a, c, r);
    }
  }

  /** The 4-by-4 scaling stretches every point along the axes. */
  lemma ScalingStretchesPoints(x: real, y: real, z: real, px: real, py: real, pz: real, pw: real)
    ensures Apply(4, Scaling(4, x, y, z), [px, py, pz, pw]) == [x * px, y * py, z * pz, pw]
  {
    var t, v, w := Scaling(4, x, y, z), [px, py, pz, pw], [x * px, y * py, z * pz, pw];
    forall r | 0 <= r < 4
      ensures Apply(4, t, v)[r] == w[r]
    {
      RowTimes4(t, v, r);
      assert forall c :: 0 <= c < 4 && c != r ==> t[c][r] == 0.0;
    }
  }

  /** Scaling the identity gives the diagonal (x, y, z, 1). */
  lemma ScaledIdentity(x: real, y: real, z: real)
    ensures forall c, r :: 0 <= c < 4 && 0 <= r < 4 ==>
      Product(4, Scaling(4, x, y, z), Identity(4))[c][r] == if r == c then [x, y, z, 1.0][r] else 0.0
  {
    IdentityRightNeutral(4, Scaling(4, x, y, z));
  }

  // ---------------------------------------------------------------------------
  // Rotation about an axis

  /** The cross-product matrix of the axis (x, y, z), padded with zeros:
      applied to v it gives (x, y, z) x v. */
  function Skew(n: int, x: real, y: real, z: real): (k: Matrix)
    requires 3 <= n
    ensures IsSquare(n, k)
  {
    seq(n, c requires 0 <= c < n => seq(n, r requires 0 <= r < n =>
      if r < 3 && c < 3 then [[0.0, -z, y], [z, 0.0, -x], [-y, x, 0.0]][r][c] else 0.0))
  }

  /** The six `set` calls of `rotate` on a zero matrix build it. */
  lemma SkewBySets(n: int, x: real, y: real, z: real)
    requires 3 <= n
    ensures Put(n, Put(n, Put(n, Put(n, Put(n, Put(n, Zeros(n),
              0, 1, -z), 0, 2, y), 1, 2, -x), 1, 0, z), 2, 0, -y), 2, 1, x)
         == Skew(n, x, y, z)
  {
    var k := Put(n, Put(n, Put(n, Put(n, Put(n, Put(n, Zeros(n),
               0, 1, -z), 0, 2, y), 1, 2, -x), 1, 0, z), 2, 0, -y), 2, 1, x);
    Extensionality(n, k, Skew(n, x, y, z));
  }

  /** The rotation by the angle whose sine is s and cosine is co about the
      unit axis (x, y, z): I + s K + (1 - co) K^2, with K the skew matrix. */
  function Rotation(n: int, s: real, co: real, x: real, y: real, z: real): (t: Matrix)
    requires 3 <= n
    ensures IsSquare(n, t)
  {
    var k := Skew(n, x, y, z);
    Sum(n, Sum(n, Identity(n), Scaled(n, k, s)), Scaled(n, Product(n, k, k), 1.0 - co))
  }

  /** Rotating by the zero angle changes nothing. */
  lemma RotationByZero(n: int, x: real, y: real, z: real)
    requires 3 <= n
    ensures Rotation(n, 0.0, 1.0, x, y, z) == Identity(n)
  {
    Extensionality(n, Rotation(n, 0.0, 1.0, x, y, z), Identity(n));
  }

  /** K applied to v is the cross product (x, y, z) x v. */
  lemma SkewIsCrossProduct(x: real, y: real, z: real, a: real, b: real, c: real, w: real)
    ensures Apply(4, Skew(4, x, y, z), [a, b, c, w]) == [y * c - z * b, z * a - x * c, x * b - y * a, 0.0]
  {
    var k, v, p := Skew(4, x, y, z), [a, b, c, w], [y * c - z * b, z * a - x * c, x * b - y * a, 0.0];
    forall r | 0 <= r < 4
      ensures Apply(4, k, v)[r] == p[r]
    {
      RowTimes4(k, v, r);
    }
  }

  /** u u^T - |u|^2 I on the first three rows and columns, zero elsewhere,
      where u is the axis (x, y, z). */
  function AxisSquare(x: real, y: real, z: real): (t: Matrix)
    ensures IsSquare(4, t)
  {
    seq(4, c requires 0 <= c < 4 => seq(4, r requires 0 <= r < 4 =>
      if r < 3 && c < 3 then [x, y, z][r] * [x, y, z][c] - (if r == c then x * x + y * y + z * z else 0.0)
      else 0.0))
  }

  /** One entry of K * K. */
  lemma SkewSquaredEntry(x: real, y: real, z: real, c: int, r: int)
    requires 0 <= c < 4 && 0 <= r < 4
    ensures Product(4, Skew(4, x, y, z), Skew(4, x, y, z))[c][r] == AxisSquare(x, y, z)[c][r]
  {
    var k := Skew(4, x, y, z);
    Dot4(k, k, r, c);
  }

  /** K * K is AxisSquare. */
  lemma SkewSquared(x: real, y: real, z: real)
    ensures Product(4, Skew(4, x, y, z), Skew(4, x, y, z)) == AxisSquare(x, y, z)
  {
    var k, a := Skew(4, x, y, z), AxisSquare(x, y, z);
    forall c, r | 0 <= c < 4 && 0 <= r < 4
      ensures Product(4, k, k)[c][r] == a[c][r]
    {
      SkewSquaredEntry(x, y, z, c, r);
    }
    Extensionality(4, Product(4, k, k), a);
  }

  /** The arithmetic behind SkewSquaredKillsAxis: a row t u^T - q d^T of
      K * K, with d the matching row of the identity, applied to the axis u
      gives t |u|^2 - q t = 0. */
  lemma SquaredSkewRow(x: real, y: real, z: real, w: real, t: real, d0: real, d1: real, d2: real,
                       k0: real, k1: real, k2: real, k3: real)
    requires d0 * x + d1 * y + d2 * z == t
    requires k0 == t * x - d0 * (x * x + y * y + z * z)
    requires k1 == t * y - d1 * (x * x + y * y + z * z)
    requires k2 == t * z - d2 * (x * x + y * y + z * z)
    requires k3 == 0.0
    ensures k0 * x + k1 * y + k2 * z + k3 * w == 0.0
  {
    var q := x * x + y * y + z * z;
    assert k0 * x + k1 * y + k2 * z == t * q - (d0 * x + d1 * y + d2 * z) * q;
  }

  /** Row r of AxisSquare applied to the axis is zero. */
  lemma AxisSquareRow(x: real, y: real, z: real, w: real, r: int)
    requires 0 <= r < 4
    ensures Apply(4, AxisSquare(x, y, z), [x, y, z, w])[r] == 0.0
  {
    var kk, v := AxisSquare(x, y, z), [x, y, z, w];
    RowTimes4(kk, v, r);
    if r < 3 {
      var d := [[1.0, 0.0, 0.0], [0.0, 1.0, 0.0], [0.0, 0.0, 1.0]][r];
      SquaredSkewRow(x, y, z, w, [x, y, z][r], d[0], d[1], d[2], kk[0][r], kk[1][r], kk[2][r], kk[3][r]);
    }
  }

  /** K * K sends the axis to zero. */
  lemma SkewSquaredKillsAxis(x: real, y: real, z: real, w: real)
    ensures Apply(4, Product(4, Skew(4, x, y, z), Skew(4, x, y, z)), [x, y, z, w]) == [0.0, 0.0, 0.0, 0.0]
  {
    forall r | 0 <= r < 4
      ensures Apply(4, AxisSquare(x, y, z), [x, y, z, w])[r] == 0.0
    {
      AxisSquareRow(x, y, z, w, r);
    }
    SkewSquared(x, y, z);
  }

  /** I + s k + (1 - co) kk fixes every vector that k and kk both send to
      zero. */
  lemma FixedByRotationParts(n: int, k: Matrix, kk: Matrix, s: real, co: real, v: seq<real>)
    requires 0 < n && IsSquare(n, k) && IsSquare(n, kk) && |v| == n
    requires forall r :: 0 <= r < n ==> Apply(n, k, v)[r] == 0.0 && Apply(n, kk, v)[r] == 0.0
    ensures Apply(n, Sum(n, Sum(n, Identity(n), Scaled(n, k, s)), Scaled(n, kk, 1.0 - co)), v) == v
  {
    var first, second := Sum(n, Identity(n), Scaled(n, k, s)), Scaled(n, kk, 1.0 - co);
    ApplySum(n, first, second, v);
    ApplySum(n, Identity(n), Scaled(n, k, s), v);
    ApplyScaled(n, k, s, v);
    ApplyScaled(n, kk, 1.0 - co, v);
    ApplyIdentity(n, v);
    forall r | 0 <= r < n
      ensures Apply(n, Sum(n, first, second), v)[r] == v[r]
    {
      assert Apply(n, first, v)[r] == v[r] + s * 0.0;
      assert Apply(n, second, v)[r] == (1.0 - co) * 0.0;
    }
  }

  /** A rotation leaves every point on its axis where it is. */
  lemma RotationFixesAxis(s: real, co: real, x: real, y: real, z: real, w: real)
    ensures Apply(4, Rotation(4, s, co, x, y, z), [x, y, z, w]) == [x, y, z, w]
  {
    var k, v := Skew(4, x, y, z), [x, y, z, w];
    SkewIsCrossProduct(x, y, z, x, y, z, w);
    assert Apply(4, k, v) == [0.0, 0.0, 0.0, 0.0];
    SkewSquaredKillsAxis(x, y, z, w);
    FixedByRotationParts(4, k, Product(4, k, k), s, co, v);
  }

  // ---------------------------------------------------------------------------
  // Orthographic projection

  /** Half the width of the interval [lo, hi]. */
  function Half(lo: real, hi: real): (h: real)
    ensures lo + 2.0 * h == hi
  {
    (hi - lo) / 2.0
  }

  /** The identity with 1 / h on the first three diagonal entries and
      -lo / h - 1 above them in column 3, for the half-extents h and the
      lower bounds lo of the box [xl, xr] x [yd, yu] x [zn, zf]. */
  function Orthographic(n: int, xl: real, xr: real, yd: real, yu: real, zn: real, zf: real): (t: Matrix)
    requires 4 <= n && xl != xr && yd != yu && zn != zf
    ensures IsSquare(n, t)
  {
    var lo, half := [xl, yd, zn], [Half(xl, xr), Half(yd, yu), Half(zn, zf)];
    seq(n, c requires 0 <= c < n => seq(n, r requires 0 <= r < n =>
      if r == c && r < 3 then 1.0 / half[r]
      else if c == 3 && r < 3 then -lo[r] / half[r] - 1.0
      else if r == c then 1.0 else 0.0))
  }

  /** The six `set` calls of `setOrthographic` on the identity build it. */
  lemma OrthographicBySets(n: int, xl: real, xr: real, yd: real, yu: real, zn: real, zf: real)
    requires 4 <= n && xl != xr && yd != yu && zn != zf
    ensures
      var xh, yh, zh := Half(xl, xr), Half(yd, yu), Half(zn, zf);
      Put(n, Put(n, Put(n, Put(n, Put(n, Put(n, Identity(n),
        0, 0, 1.0 / xh), 1, 1, 1.0 / yh), 2, 2, 1.0 / zh),
        0, 3, -xl / xh - 1.0), 1, 3, -yd / yh - 1.0), 2, 3, -zn / zh - 1.0)
      == Orthographic(n, xl, xr, yd, yu, zn, zf)
  {
    var xh, yh, zh := Half(xl, xr), Half(yd, yu), Half(zn, zf);
    var m := Put(n, Put(n, Put(n, Put(n, Put(n, Put(n, Identity(n),
        0, 0, 1.0 / xh), 1, 1, 1.0 / yh), 2, 2, 1.0 / zh),
        0, 3, -xl / xh - 1.0), 1, 3, -yd / yh - 1.0), 2, 3, -zn / zh - 1.0);
    Extensionality(n, m, Orthographic(n, xl, xr, yd, yu, zn, zf));
  }

  /** The box [-1, 1]^3 gives the identity. */
  lemma OrthographicUnitCube(n: int)
    requires 4 <= n
    ensures Orthographic(n, -1.0, 1.0, -1.0, 1.0, -1.0, 1.0) == Identity(n)
  {
    Extensionality(n, Orthographic(n, -1.0, 1.0, -1.0, 1.0, -1.0, 1.0), Identity(n));
  }

  /** The arithmetic of one axis of the orthographic projection. */
  lemma OrthographicAxis(lo: real, hi: real, p: real)
    requires lo != hi
    ensures 1.0 / Half(lo, hi) * p + (-lo / Half(lo, hi) - 1.0) == (p - lo) / Half(lo, hi) - 1.0
  {
    var h := Half(lo, hi);
    assert 1.0 / h * p == p / h;
    assert p / h - lo / h == (p - lo) / h;
  }

  /** The orthographic projection takes each coordinate p of a point to
      (p - lo) / h - 1, for the lower bound lo and half-extent h of its axis. */
  lemma OrthographicMapsPoints(xl: real, xr: real, yd: real, yu: real, zn: real, zf: real,
                               px: real, py: real, pz: real)
    requires xl != xr && yd != yu && zn != zf
    ensures Apply(4, Orthographic(4, xl, xr, yd, yu, zn, zf), [px, py, pz, 1.0]) ==
      [(px - xl) / Half(xl, xr) - 1.0, (py - yd) / Half(yd, yu) - 1.0, (pz - zn) / Half(zn, zf) - 1.0, 1.0]
  {
    var t, v := Orthographic(4, xl, xr, yd, yu, zn, zf), [px, py, pz, 1.0];
    var w := [(px - xl) / Half(xl, xr) - 1.0, (py - yd) / Half(yd, yu) - 1.0, (pz - zn) / Half(zn, zf) - 1.0, 1.0];
    forall r | 0 <= r < 4
      ensures Apply(4, t, v)[r] == w[r]
    {
      RowTimes4(t, v, r);
      if r == 0 {
        OrthographicAxis(xl, xr, px);
      } else if r == 1 {
        OrthographicAxis(yd, yu, py);
      } else if r == 2 {
        OrthographicAxis(zn, zf, pz);
      }
    }
  }

  /** So the near lower left corner of the box goes to (-1, -1, -1) and the
      far upper right corner to (1, 1, 1). */
  lemma OrthographicMapsBox(xl: real, xr: real, yd: real, yu: real, zn: real, zf: real)
    requires xl != xr && yd != yu && zn != zf
    ensures Apply(4, Orthographic(4, xl, xr, yd, yu, zn, zf), [xl, yd, zn, 1.0]) == [-1.0, -1.0, -1.0, 1.0]
    ensures Apply(4, Orthographic(4, xl, xr, yd, yu, zn, zf), [xr, yu, zf, 1.0]) == [1.0, 1.0, 1.0, 1.0]
  {
    OrthographicMapsPoints(xl, xr, yd, yu, zn, zf, xl, yd, zn);
    OrthographicMapsPoints(xl, xr, yd, yu, zn, zf, xr, yu, zf);
    assert (xr - xl) / Half(xl, xr) == 2.0;
    assert (yu - yd) / Half(yd, yu) == 2.0;
    assert (zf - zn) / Half(zn, zf) == 2.0;
  }

  // ---------------------------------------------------------------------------
  // Perspective projection

  /** The frustum projection of setFrustum, on a zero matrix: zn / h and
      -lo / h - 1 (for the half-extent h and the lower bound lo of the x and
      y ranges) on rows 0 and 1, depth terms zn / zh + 1 and -(zn zf / zh) on
      row 2, and a 1 at row 3, column 2 that copies z into w. */
  function Frustum(n: int, xl: real, xr: real, yd: real, yu: real, zn: real, zf: real): (t: Matrix)
    requires 4 <= n && xl != xr && yd != yu && zn != zf
    ensures IsSquare(n, t)
  {
    var lo, half, zh := [xl, yd], [Half(xl, xr), Half(yd, yu)], Half(zn, zf);
    seq(n, c requires 0 <= c < n => seq(n, r requires 0 <= r < n =>
      if r == c && r < 2 then zn / half[r]
      else if c == 2 && r < 2 then -lo[r] / half[r] - 1.0
      else if c == 2 && r == 2 then zn / zh + 1.0
      else if c == 3 && r == 2 then -(zn * zf / zh)
      else if c == 2 && r == 3 then 1.0
      else 0.0))
  }

  /** The `empty` call and the eight `set` calls of `setFrustum` build it. */
  lemma FrustumBySets(n: int, xl: real, xr: real, yd: real, yu: real, zn: real, zf: real)
    requires 4 <= n && xl != xr && yd != yu && zn != zf
    ensures
      var xh, yh, zh := Half(xl, xr), Half(yd, yu), Half(zn, zf);
      Put(n, Put(n, Put(n, Put(n, Put(n, Put(n, Put(n, Put(n, Zeros(n),
        0, 0, zn / xh), 1, 1, zn / yh),
        0, 2, -xl / xh - 1.0), 1, 2, -yd / yh - 1.0), 2, 2, zn / zh + 1.0),
        2, 3, -(zn * zf / zh)), 3, 2, 1.0), 3, 3, 0.0)
      == Frustum(n, xl, xr, yd, yu, zn, zf)
  {
    var xh, yh, zh := Half(xl, xr), Half(yd, yu), Half(zn, zf);
    var m := Put(n, Put(n, Put(n, Put(n, Put(n, Put(n, Put(n, Put(n, Zeros(n),
        0, 0, zn / xh), 1, 1, zn / yh),
        0, 2, -xl / xh - 1.0), 1, 2, -yd / yh - 1.0), 2, 2, zn / zh + 1.0),
        2, 3, -(zn * zf / zh)), 3, 2, 1.0), 3, 3, 0.0);
    Extensionality(n, m, Frustum(n, xl, xr, yd, yu, zn, zf));
  }

  /** The frustum projection of a point, written out: the clip coordinates
      before the division by w. */
  lemma FrustumMapsPoints(xl: real, xr: real, yd: real, yu: real, zn: real, zf: real,
                          px: real, py: real, pz: real)
    requires xl != xr && yd != yu && zn != zf
    ensures Apply(4, Frustum(4, xl, xr, yd, yu, zn, zf), [px, py, pz, 1.0]) ==
      [zn / Half(xl, xr) * px + (-xl / Half(xl, xr) - 1.0) * pz,
       zn / Half(yd, yu) * py + (-yd / Half(yd, yu) - 1.0) * pz,
       (zn / Half(zn, zf) + 1.0) * pz - zn * zf / Half(zn, zf),
       pz]
  {
    var t, v := Frustum(4, xl, xr, yd, yu, zn, zf), [px, py, pz, 1.0];
    var w := [zn / Half(xl, xr) * px + (-xl / Half(xl, xr) - 1.0) * pz,
              zn / Half(yd, yu) * py + (-yd / Half(yd, yu) - 1.0) * pz,
              (zn / Half(zn, zf) + 1.0) * pz - zn * zf / Half(zn, zf),
              pz];
    RowTimes4(t, v, 0);
    RowTimes4(t, v, 1);
    RowTimes4(t, v, 2);
    RowTimes4(t, v, 3);
    forall r | 0 <= r < 4
      ensures Apply(4, t, v)[r] == w[r]
    {
      assert r == 0 || r == 1 || r == 2 || r == 3;
    }
  }

  /** The arithmetic of the x or y axis at the two corners of the frustum. */
  lemma FrustumSideAxis(lo: real, hi: real, zn: real, zf: real)
    requires lo != hi && zn != 0.0
    ensures zn / Half(lo, hi) * lo + (-lo / Half(lo, hi) - 1.0) * zn == -zn
    ensures zn / Half(lo, hi) * (hi * zf / zn) + (-lo / Half(lo, hi) - 1.0) * zf == zf
  {
    var h := Half(lo, hi);
    assert zn / h * lo == lo / h * zn;
    assert zn / h * (hi * zf / zn) == hi / h * zf;
    assert hi / h * zf - lo / h * zf == (hi - lo) / h * zf;
    assert (hi - lo) / h == 2.0;
  }

  /** The arithmetic of the depth axis at the near and the far plane. */
  lemma FrustumDepthAxis(zn: real, zf: real)
    requires zn != zf
    ensures (zn / Half(zn, zf) + 1.0) * zn - zn * zf / Half(zn, zf) == -zn
    ensures (zn / Half(zn, zf) + 1.0) * zf - zn * zf / Half(zn, zf) == zf
  {
    var h := Half(zn, zf);
    assert zn / h * zn - zn * zf / h == zn * ((zn - zf) / h);
    assert (zn - zf) / h == -2.0;
    assert zn / h * zf == zn * zf / h;
  }

  /** The frustum projection maps the near lower left corner (xl, yd, zn) to
      clip coordinates (-zn, -zn, -zn, zn), which is (-1, -1, -1) after the
      division by w. */
  lemma FrustumMapsNearCorner(xl: real, xr: real, yd: real, yu: real, zn: real, zf: real)
    requires xl != xr && yd != yu && zn != zf && zn != 0.0
    ensures Apply(4, Frustum(4, xl, xr, yd, yu, zn, zf), [xl, yd, zn, 1.0]) == [-zn, -zn, -zn, zn]
  {
    FrustumMapsPoints(xl, xr, yd, yu, zn, zf, xl, yd, zn);
    FrustumSideAxis(xl, xr, zn, zf);
    FrustumSideAxis(yd, yu, zn, zf);
    FrustumDepthAxis(zn, zf);
    var near := Apply(4, Frustum(4, xl, xr, yd, yu, zn, zf), [xl, yd, zn, 1.0]);
    forall r | 0 <= r < 4
      ensures near[r] == [-zn, -zn, -zn, zn][r]
    {
    }
  }

  /** The frustum projection maps the far upper right corner, the point at
      depth zf on the ray through (xr, yu, zn), to clip coordinates
      (zf, zf, zf, zf), which is (1, 1, 1) after the division by w. */
  lemma FrustumMapsFarCorner(xl: real, xr: real, yd: real, yu: real, zn: real, zf: real)
    requires xl != xr && yd != yu && zn != zf && zn != 0.0
    ensures Apply(4, Frustum(4, xl, xr, yd, yu, zn, zf), [xr * zf / zn, yu * zf / zn, zf, 1.0]) == [zf, zf, zf, zf]
  {
    FrustumMapsPoints(xl, xr, yd, yu, zn, zf, xr * zf / zn, yu * zf / zn, zf);
    FrustumSideAxis(xl, xr, zn, zf);
    FrustumSideAxis(yd, yu, zn, zf);
    FrustumDepthAxis(zn, zf);
    var far := Apply(4, Frustum(4, xl, xr, yd, yu, zn, zf), [xr * zf / zn, yu * zf / zn, zf, 1.0]);
    forall r | 0 <= r < 4
      ensures far[r] == zf
    {
    }
  }

  /** The symmetric frustum of setPerspective: the near plane's upper edge
      at zn * tangent, with tangent the tangent of half the vertical field of
      view, and its width aspect times its height. */
  function Perspective(n: int, tangent: real, aspect: real, zn: real, zf: real): (t: Matrix)
    requires 4 <= n && zn * tangent != 0.0 && aspect != 0.0 && zn != zf
    ensures IsSquare(n, t)
  {
    var yu := zn * tangent;
    var yd := -yu;
    var xl := yd * aspect;
    var xr := -xl;
    Frustum(n, xl, xr, yd, yu, zn, zf)
  }

  /** Perspective is the frustum of the symmetric bounds it computes. */
  lemma PerspectiveIsFrustum(n: int, tangent: real, aspect: real, zn: real, zf: real)
    requires 4 <= n && zn * tangent != 0.0 && aspect != 0.0 && zn != zf
    ensures var yu := zn * tangent; var yd := -yu; var xl := yd * aspect;
      xl != -xl && yd != yu && Perspective(n, tangent, aspect, zn, zf) == Frustum(n, xl, -xl, yd, yu, zn, zf)
  {
  }

  /** The arithmetic of the symmetric frustum's x and y entries. */
  lemma SymmetricAxes(tangent: real, aspect: real, zn: real, yu: real, yd: real, xl: real, xr: real)
    requires zn * tangent != 0.0 && aspect != 0.0
    requires yu == zn * tangent && yd == -yu && xl == yd * aspect && xr == -xl
    ensures zn / Half(xl, xr) == 1.0 / (tangent * aspect) && -xl / Half(xl, xr) - 1.0 == 0.0
    ensures zn / Half(yd, yu) == 1.0 / tangent && -yd / Half(yd, yu) - 1.0 == 0.0
  {
    assert xl == -(zn * tangent) * aspect;
    assert Half(xl, xr) == zn * tangent * aspect;
    assert Half(yd, yu) == zn * tangent;
    assert zn / (zn * tangent * aspect) == 1.0 / (tangent * aspect);
    assert zn / (zn * tangent) == 1.0 / tangent;
  }

  /** The symmetric frustum is centred: no x or y shift by depth, and the
      scales are 1 / (tangent aspect) and 1 / tangent. */
  lemma PerspectiveIsCentered(n: int, tangent: real, aspect: real, zn: real, zf: real)
    requires 4 <= n && zn * tangent != 0.0 && aspect != 0.0 && zn != zf
    ensures Perspective(n, tangent, aspect, zn, zf)[2][0] == 0.0
    ensures Perspective(n, tangent, aspect, zn, zf)[2][1] == 0.0
    ensures Perspective(n, tangent, aspect, zn, zf)[0][0] == 1.0 / (tangent * aspect)
    ensures Perspective(n, tangent, aspect, zn, zf)[1][1] == 1.0 / tangent
  {
    var yu := zn * tangent;
    var yd := -yu;
    var xl := yd * aspect;
    var xr := -xl;
    SymmetricAxes(tangent, aspect, zn, yu, yd, xl, xr);
    PerspectiveIsFrustum(n, tangent, aspect, zn, zf);
    var f := Frustum(n, xl, xr, yd, yu, zn, zf);
    assert f[2][0] == -xl / Half(xl, xr) - 1.0 && f[0][0] == zn / Half(xl, xr);
    assert f[2][1] == -yd / Half(yd, yu) - 1.0 && f[1][1] == zn / Half(yd, yu);
  }
}
