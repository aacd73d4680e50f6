/** Square matrices over the reals, the specification layer the GLMatrix class
    is proved against.

    A matrix is kept as its sequence of columns: m[c][r] is the entry at row r
    and column c. The class stores the same matrix in one flat buffer in
    column-major order, the entry (r, c) of an n-by-n matrix at index c * n + r;
    Columns and Flatten convert between the two views and are inverse. */
module Matrices {

  type Matrix = seq<seq<real>>

  /** m has n columns of n entries each. */
  ghost predicate IsSquare(n: int, m: Matrix) {
    0 < n && |m| == n && forall c :: 0 <= c < n ==> |m[c]| == n
  }

  /** Two n-by-n matrices that agree on every entry are equal. */
  lemma Extensionality(n: int, a: Matrix, b: Matrix)
    requires IsSquare(n, a) && IsSquare(n, b)
    requires forall c, r :: 0 <= c < n && 0 <= r < n ==> a[c][r] == b[c][r]
    ensures a == b
  {
    forall c | 0 <= c < n
      ensures a[c] == b[c]
    {
    }
  }

  // ---------------------------------------------------------------------------
  // Column-major layout

  lemma MulMonotone(a: int, b: int, m: int)
    requires a <= b && 0 <= m
    ensures a * m <= b * m
  {
    assert b * m - a * m == (b - a) * m;
  }

  /** r + n + ... + n with c summands n, that is c * n + r
      (ColumnStepsIsProduct). Index arithmetic is written with it instead of
      a product, so that reasoning about cells stays linear. */
  function ColumnSteps(n: int, r: int, c: int): int
    requires 0 <= c
    decreases c
  {
    if c == 0 then r else ColumnSteps(n, r, c - 1) + n
  }

  lemma {:induction false} ColumnStepsIsProduct(n: int, r: int, c: int)
    requires 0 <= c
    ensures ColumnSteps(n, r, c) == c * n + r
  {
    if c > 0 {
      ColumnStepsIsProduct(n, r, c - 1);
      assert (c - 1) * n + n == c * n;
    }
  }

  /** Moving one row down moves one index forward. */
  lemma {:induction false} ColumnStepsShift(n: int, r: int, c: int)
    requires 0 <= c
    ensures ColumnSteps(n, r, c) == ColumnSteps(n, 0, c) + r
  {
    if c > 0 {
      ColumnStepsShift(n, r, c - 1);
    }
  }

  /** The number of cells of an n-by-n matrix. */
  function Cells(n: int): (k: int)
    requires 0 <= n
    ensures 0 <= k
  {
    ColumnStepsIsProduct(n, 0, n);
    ColumnSteps(n, 0, n)
  }

  lemma CellsIsSquare(n: int)
    requires 0 <= n
    ensures Cells(n) == n * n
  {
    ColumnStepsIsProduct(n, 0, n);
  }

  lemma IdxInRange(n: int, r: int, c: int)
    requires 0 <= r < n && 0 <= c < n
    ensures 0 <= ColumnSteps(n, r, c) < Cells(n)
  {
    ColumnStepsIsProduct(n, r, c);
    CellsIsSquare(n);
    MulMonotone(0, c, n);
    MulMonotone(c, n - 1, n);
  }

  /** Flat index of the entry at row r, column c. */
  function Idx(n: int, r: int, c: int): (k: int)
    requires 0 <= r < n && 0 <= c < n
    ensures 0 <= k < Cells(n)
  {
    IdxInRange(n, r, c);
    ColumnSteps(n, r, c)
  }

  /** The layout is column-major: cell (r, c) sits at c * n + r. */
  lemma IdxIsColumnMajor(n: int, r: int, c: int)
    requires 0 <= r < n && 0 <= c < n
    ensures Idx(n, r, c) == c * n + r
  {
    ColumnStepsIsProduct(n, r, c);
  }

  /** Later columns start further along. */
  lemma {:induction false} ColumnStepsMonotone(n: int, c: int, c': int)
    requires 0 <= n && 0 <= c <= c'
    ensures ColumnSteps(n, 0, c) <= ColumnSteps(n, 0, c')
  {
    if c < c' {
      ColumnStepsMonotone(n, c, c' - 1);
    }
  }

  /** Distinct cells have distinct flat indices. */
  lemma IdxInjective(n: int, r: int, c: int, r': int, c': int)
    requires 0 <= r < n && 0 <= c < n && 0 <= r' < n && 0 <= c' < n
    requires Idx(n, r, c) == Idx(n, r', c')
    ensures r == r' && c == c'
  {
    ColumnStepsShift(n, r, c);
    ColumnStepsShift(n, r', c');
    if c < c' {
      ColumnStepsMonotone(n, c + 1, c');
      assert false;
    } else if c' < c {
      ColumnStepsMonotone(n, c' + 1, c);
      assert false;
    }
  }

  /** Every flat index inside the buffer is the index of the cell
      (k % n, k / n). */
  lemma RowColOf(n: int, k: int)
    requires 0 < n && 0 <= k < Cells(n)
    ensures 0 <= k % n < n && 0 <= k / n < n
    ensures Idx(n, k % n, k / n) == k
  {
    var q, m := k / n, k % n;
    assert k == q * n + m;
    CellsIsSquare(n);
    if n <= q {
      MulMonotone(n, q, n);
      assert false;
    }
    IdxIsColumnMajor(n, m, q);
  }

  /** The column view of a flat column-major buffer. */
  function Columns(n: int, e: seq<real>): (m: Matrix)
    requires 0 < n && |e| == Cells(n)
    ensures IsSquare(n, m)
    ensures forall c, r :: 0 <= c < n && 0 <= r < n ==> m[c][r] == e[Idx(n, r, c)]
  {
    seq(n, c requires 0 <= c < n => seq(n, r requires 0 <= r < n => e[Idx(n, r, c)]))
  }

  /** The flat column-major buffer of a matrix. */
  function Flatten(n: int, m: Matrix): (e: seq<real>)
    requires IsSquare(n, m)
    ensures |e| == Cells(n)
  {
    seq(Cells(n), k requires 0 <= k < Cells(n) => RowColOf(n, k); m[k / n][k % n])
  }

  /** Flatten puts the entry (r, c) at index Idx(n, r, c). */
  lemma FlattenAt(n: int, m: Matrix, r: int, c: int)
    requires IsSquare(n, m) && 0 <= r < n && 0 <= c < n
    ensures Flatten(n, m)[Idx(n, r, c)] == m[c][r]
  {
    var k := Idx(n, r, c);
    RowColOf(n, k);
    IdxInjective(n, k % n, k / n, r, c);
  }

  /** Flattening and then taking columns gives back the matrix. */
  lemma ColumnsOfFlatten(n: int, m: Matrix)
    requires IsSquare(n, m)
    ensures Columns(n, Flatten(n, m)) == m
  {
    var e := Flatten(n, m);
    forall c, r | 0 <= c < n && 0 <= r < n
      ensures Columns(n, e)[c][r] == m[c][r]
    {
      FlattenAt(n, m, r, c);
    }
    Extensionality(n, Columns(n, e), m);
  }

  /** Taking columns and then flattening gives back the buffer. */
  lemma FlattenOfColumns(n: int, e: seq<real>)
    requires 0 < n && |e| == Cells(n)
    ensures Flatten(n, Columns(n, e)) == e
  {
    var f := Flatten(n, Columns(n, e));
    forall k | 0 <= k < Cells(n)
      ensures f[k] == e[k]
    {
      RowColOf(n, k);
    }
  }

  /** Two buffers with the same column view are the same buffer. */
  lemma ColumnsInjective(n: int, e: seq<real>, f: seq<real>)
    requires 0 < n && |e| == Cells(n) && |f| == Cells(n) && Columns(n, e) == Columns(n, f)
    ensures e == f
  {
    FlattenOfColumns(n, e);
    FlattenOfColumns(n, f);
  }

  /** Writing one flat index is writing one cell of the column view. */
  lemma ColumnsOfUpdate(n: int, e: seq<real>, r: int, c: int, v: real)
    requires 0 < n && |e| == Cells(n) && 0 <= r < n && 0 <= c < n
    ensures Columns(n, e[Idx(n, r, c) := v]) == Put(n, Columns(n, e), r, c, v)
  {
    var a, b := Columns(n, e[Idx(n, r, c) := v]), Put(n, Columns(n, e), r, c, v);
    forall c', r' | 0 <= c' < n && 0 <= r' < n
      ensures a[c'][r'] == b[c'][r']
    {
      if Idx(n, r', c') == Idx(n, r, c) {
        IdxInjective(n, r', c', r, c);
      }
    }
    Extensionality(n, a, b);
  }

  /** A buffer whose column view is that of e with one cell replaced is e
      with that one index replaced. */
  lemma PutIsUpdate(n: int, e: seq<real>, f: seq<real>, r: int, c: int, v: real)
    requires 0 < n && |e| == Cells(n) && |f| == Cells(n) && 0 <= r < n && 0 <= c < n
    requires Columns(n, f) == Put(n, Columns(n, e), r, c, v)
    ensures f == e[Idx(n, r, c) := v]
  {
    ColumnsOfUpdate(n, e, r, c, v);
    ColumnsInjective(n, f, e[Idx(n, r, c) := v]);
  }

  // ---------------------------------------------------------------------------
  // Constructions

  /** The zero matrix. */
  function Zeros(n: int): (z: Matrix)
    requires 0 < n
    ensures IsSquare(n, z)
  {
    seq(n, c => seq(n, r => 0.0))
  }

  /** The identity matrix. */
  function Identity(n: int): (id: Matrix)
    requires 0 < n
    ensures IsSquare(n, id)
  {
    seq(n, c => seq(n, r => if r == c then 1.0 else 0.0))
  }

  /** m with the entry at row r, column c replaced by v. */
  function Put(n: int, m: Matrix, r: int, c: int, v: real): (p: Matrix)
    requires IsSquare(n, m) && 0 <= r < n && 0 <= c < n
    ensures IsSquare(n, p)
    ensures forall c', r' :: 0 <= c' < n && 0 <= r' < n ==>
      p[c'][r'] == if c' == c && r' == r then v else m[c'][r']
  {
    m[c := m[c][r := v]]
  }

  /** A second write to the same cell overrides the first. */
  lemma PutTwice(n: int, m: Matrix, r: int, c: int, v: real, w: real)
    requires IsSquare(n, m) && 0 <= r < n && 0 <= c < n
    ensures Put(n, Put(n, m, r, c, v), r, c, w) == Put(n, m, r, c, w)
  {
    Extensionality(n, Put(n, Put(n, m, r, c, v), r, c, w), Put(n, m, r, c, w));
  }

  /** Writing the value a cell already holds changes nothing. */
  lemma PutSame(n: int, m: Matrix, r: int, c: int)
    requires IsSquare(n, m) && 0 <= r < n && 0 <= c < n
    ensures Put(n, m, r, c, m[c][r]) == m
  {
    Extensionality(n, Put(n, m, r, c, m[c][r]), m);
  }

  /** Entrywise sum. */
  function Sum(n: int, a: Matrix, b: Matrix): (s: Matrix)
    requires IsSquare(n, a) && IsSquare(n, b)
    ensures IsSquare(n, s)
  {
    seq(n, c requires 0 <= c < n => seq(n, r requires 0 <= r < n => a[c][r] + b[c][r]))
  }

  /** Every entry multiplied by the scalar k. */
  function Scaled(n: int, a: Matrix, k: real): (s: Matrix)
    requires IsSquare(n, a)
    ensures IsSquare(n, s)
  {
    seq(n, c requires 0 <= c < n => seq(n, r requires 0 <= r < n => a[c][r] * k))
  }

  /** a(r, 0) * b(0, c) + ... + a(r, m - 1) * b(m - 1, c), accumulated in
      increasing order of the inner index. */
  function Dot(n: int, a: Matrix, b: Matrix, r: int, c: int, m: int): real
    requires IsSquare(n, a) && IsSquare(n, b)
    requires 0 <= r < n && 0 <= c < n && 0 <= m <= n
    decreases m
  {
    if m == 0 then 0.0 else Dot(n, a, b, r, c, m - 1) + a[m - 1][r] * b[c][m - 1]
  }

  /** Dot read straight off two flat column-major buffers, as the triple
      loop of GLMatrix.mul reads it. */
  function BufferDot(n: int, e: seq<real>, f: seq<real>, r: int, c: int, m: int): real
    requires 0 < n && |e| == Cells(n) && |f| == Cells(n)
    requires 0 <= r < n && 0 <= c < n && 0 <= m <= n
    decreases m
  {
    if m == 0 then 0.0 else BufferDot(n, e, f, r, c, m - 1) + e[Idx(n, r, m - 1)] * f[Idx(n, m - 1, c)]
  }

  /** One more step of the accumulation. */
  lemma BufferDotStep(n: int, e: seq<real>, f: seq<real>, r: int, c: int, m: int, acc: real, x: real, y: real)
    requires 0 < n && |e| == Cells(n) && |f| == Cells(n)
    requires 0 <= r < n && 0 <= c < n && 0 <= m < n
    requires acc == BufferDot(n, e, f, r, c, m) && x == e[Idx(n, r, m)] && y == f[Idx(n, m, c)]
    ensures acc + x * y == BufferDot(n, e, f, r, c, m + 1)
  {
  }

  /** Reading the buffers is reading the matrices they hold. */
  lemma {:induction false} BufferDotIsDot(n: int, e: seq<real>, f: seq<real>, r: int, c: int, m: int)
    requires 0 < n && |e| == Cells(n) && |f| == Cells(n)
    requires 0 <= r < n && 0 <= c < n && 0 <= m <= n
    ensures BufferDot(n, e, f, r, c, m) == Dot(n, Columns(n, e), Columns(n, f), r, c, m)
  {
    if m > 0 {
      BufferDotIsDot(n, e, f, r, c, m - 1);
    }
  }

  /** g with rows 0 .. rows - 1 of column c overwritten by the entries of
      the product of the matrices held in e and f: the state of the result
      buffer of GLMatrix.mul part way through one column. */
  function FillColumn(n: int, e: seq<real>, f: seq<real>, g: seq<real>, c: int, rows: int): (h: seq<real>)
    requires 0 < n && |e| == Cells(n) && |f| == Cells(n) && |g| == Cells(n)
    requires 0 <= c < n && 0 <= rows <= n
    ensures |h| == Cells(n)
    decreases rows
  {
    if rows == 0 then g
    else FillColumn(n, e, f, g, c, rows - 1)[Idx(n, rows - 1, c) := BufferDot(n, e, f, rows - 1, c, n)]
  }

  /** What FillColumn holds at each cell. */
  lemma {:induction false} FillColumnAt(n: int, e: seq<real>, f: seq<real>, g: seq<real>, c: int, rows: int, r: int, c': int)
    requires 0 < n && |e| == Cells(n) && |f| == Cells(n) && |g| == Cells(n)
    requires 0 <= c < n && 0 <= rows <= n && 0 <= r < n && 0 <= c' < n
    ensures FillColumn(n, e, f, g, c, rows)[Idx(n, r, c')] ==
      if c' == c && r < rows then BufferDot(n, e, f, r, c, n) else g[Idx(n, r, c')]
    decreases rows
  {
    if rows > 0 {
      FillColumnAt(n, e, f, g, c, rows - 1, r, c');
      if Idx(n, rows - 1, c) == Idx(n, r, c') {
        IdxInjective(n, rows - 1, c, r, c');
      }
    }
  }

  /** The matrix product a * b. */
  function Product(n: int, a: Matrix, b: Matrix): (p: Matrix)
    requires IsSquare(n, a) && IsSquare(n, b)
    ensures IsSquare(n, p)
  {
    seq(n, c requires 0 <= c < n => seq(n, r requires 0 <= r < n => Dot(n, a, b, r, c, n)))
  }

  /** Entry r of m applied to v, summed over the first k columns:
      m(r, 0) * v[0] + ... + m(r, k - 1) * v[k - 1]. */
  function RowTimes(n: int, m: Matrix, v: seq<real>, r: int, k: int): real
    requires IsSquare(n, m) && |v| == n && 0 <= r < n && 0 <= k <= n
    decreases k
  {
    if k == 0 then 0.0 else RowTimes(n, m, v, r, k - 1) + m[k - 1][r] * v[k - 1]
  }

  /** The matrix m applied to the column vector v. */
  function Apply(n: int, m: Matrix, v: seq<real>): (w: seq<real>)
    requires IsSquare(n, m) && |v| == n
    ensures |w| == n
  {
    seq(n, r requires 0 <= r < n => RowTimes(n, m, v, r, n))
  }

  lemma {:induction false} RowTimesSum(n: int, a: Matrix, b: Matrix, v: seq<real>, r: int, k: int)
    requires IsSquare(n, a) && IsSquare(n, b) && |v| == n && 0 <= r < n && 0 <= k <= n
    ensures RowTimes(n, Sum(n, a, b), v, r, k) == RowTimes(n, a, v, r, k) + RowTimes(n, b, v, r, k)
  {
    if k > 0 {
      RowTimesSum(n, a, b, v, r, k - 1);
      assert (a[k - 1][r] + b[k - 1][r]) * v[k - 1] == a[k - 1][r] * v[k - 1] + b[k - 1][r] * v[k - 1];
    }
  }

  lemma {:induction false} RowTimesScaled(n: int, a: Matrix, f: real, v: seq<real>, r: int, k: int)
    requires IsSquare(n, a) && |v| == n && 0 <= r < n && 0 <= k <= n
    ensures RowTimes(n, Scaled(n, a, f), v, r, k) == f * RowTimes(n, a, v, r, k)
  {
    if k > 0 {
      RowTimesScaled(n, a, f, v, r, k - 1);
      assert a[k - 1][r] * f * v[k - 1] == f * (a[k - 1][r] * v[k - 1]);
    }
  }

  lemma {:induction false} RowTimesIdentity(n: int, v: seq<real>, r: int, k: int)
    requires 0 < n && |v| == n && 0 <= r < n && 0 <= k <= n
    ensures RowTimes(n, Identity(n), v, r, k) == if r < k then v[r] else 0.0
  {
    if k > 0 {
      RowTimesIdentity(n, v, r, k - 1);
    }
  }

  /** Applying a sum is adding the images. */
  lemma ApplySum(n: int, a: Matrix, b: Matrix, v: seq<real>)
    requires IsSquare(n, a) && IsSquare(n, b) && |v| == n
    ensures forall r :: 0 <= r < n ==> Apply(n, Sum(n, a, b), v)[r] == Apply(n, a, v)[r] + Apply(n, b, v)[r]
  {
    forall r | 0 <= r < n
      ensures Apply(n, Sum(n, a, b), v)[r] == Apply(n, a, v)[r] + Apply(n, b, v)[r]
    {
      RowTimesSum(n, a, b, v, r, n);
    }
  }

  /** Applying a scaled matrix is scaling the image. */
  lemma ApplyScaled(n: int, a: Matrix, f: real, v: seq<real>)
    requires IsSquare(n, a) && |v| == n
    ensures forall r :: 0 <= r < n ==> Apply(n, Scaled(n, a, f), v)[r] == f * Apply(n, a, v)[r]
  {
    forall r | 0 <= r < n
      ensures Apply(n, Scaled(n, a, f), v)[r] == f * Apply(n, a, v)[r]
    {
      RowTimesScaled(n, a, f, v, r, n);
    }
  }

  /** The identity fixes every vector. */
  lemma ApplyIdentity(n: int, v: seq<real>)
    requires 0 < n && |v| == n
    ensures Apply(n, Identity(n), v) == v
  {
    forall r | 0 <= r < n
      ensures Apply(n, Identity(n), v)[r] == v[r]
    {
      RowTimesIdentity(n, v, r, n);
    }
  }

  /** Entry r of a 4-by-4 matrix applied to a vector, written out. */
  lemma RowTimes4(m: Matrix, v: seq<real>, r: int)
    requires IsSquare(4, m) && |v| == 4 && 0 <= r < 4
    ensures Apply(4, m, v)[r] == m[0][r] * v[0] + m[1][r] * v[1] + m[2][r] * v[2] + m[3][r] * v[3]
  {
    var t0, t1, t2, t3 := m[0][r] * v[0], m[1][r] * v[1], m[2][r] * v[2], m[3][r] * v[3];
    assert RowTimes(4, m, v, r, 1) == t0;
    assert RowTimes(4, m, v, r, 2) == t0 + t1;
    assert RowTimes(4, m, v, r, 3) == t0 + t1 + t2;
    assert RowTimes(4, m, v, r, 4) == t0 + t1 + t2 + t3;
  }

  /** An entry of the product of two 4-by-4 matrices, written out. */
  lemma Dot4(a: Matrix, b: Matrix, r: int, c: int)
    requires IsSquare(4, a) && IsSquare(4, b) && 0 <= r < 4 && 0 <= c < 4
    ensures Dot(4, a, b, r, c, 4) == a[0][r] * b[c][0] + a[1][r] * b[c][1] + a[2][r] * b[c][2] + a[3][r] * b[c][3]
  {
    var d0, d1, d2, d3 := a[0][r] * b[c][0], a[1][r] * b[c][1], a[2][r] * b[c][2], a[3][r] * b[c][3];
    assert Dot(4, a, b, r, c, 1) == d0;
    assert Dot(4, a, b, r, c, 2) == d0 + d1;
    assert Dot(4, a, b, r, c, 3) == d0 + d1 + d2;
    assert Dot(4, a, b, r, c, 4) == d0 + d1 + d2 + d3;
  }

  // ---------------------------------------------------------------------------
  // Rows and columns with few nonzero entries

  /** When row r of t has p at (r, r) and zeros elsewhere, row r of t * a is p
      times row r of a. */
  lemma {:induction false} DotDiagonalRow(n: int, t: Matrix, a: Matrix, r: int, c: int, m: int, p: real)
    requires IsSquare(n, t) && IsSquare(n, a)
    requires 0 <= r < n && 0 <= c < n && 0 <= m <= n
    requires forall j :: 0 <= j < n ==> t[j][r] == if j == r then p else 0.0
    ensures Dot(n, t, a, r, c, m) == if r < m then p * a[c][r] else 0.0
  {
    if m > 0 {
      DotDiagonalRow(n, t, a, r, c, m - 1, p);
    }
  }

  /** When row r of t has 1 at (r, r), d at (r, q) and zeros elsewhere, row r
      of t * a is row r of a plus d times row q of a. */
  lemma {:induction false} DotShearRow(n: int, t: Matrix, a: Matrix, r: int, c: int, m: int, q: int, d: real)
    requires IsSquare(n, t) && IsSquare(n, a)
    requires 0 <= r < n && 0 <= c < n && 0 <= q < n && q != r && 0 <= m <= n
    requires forall j :: 0 <= j < n ==> t[j][r] == if j == r then 1.0 else if j == q then d else 0.0
    ensures Dot(n, t, a, r, c, m) == (if r < m then a[c][r] else 0.0) + (if q < m then d * a[c][q] else 0.0)
  {
    if m > 0 {
      DotShearRow(n, t, a, r, c, m - 1, q, d);
    }
  }

  /** When column c of t is the c-th unit column, column c of a * t is column
      c of a. */
  lemma {:induction false} DotUnitColumn(n: int, a: Matrix, t: Matrix, r: int, c: int, m: int)
    requires IsSquare(n, a) && IsSquare(n, t)
    requires 0 <= r < n && 0 <= c < n && 0 <= m <= n
    requires forall j :: 0 <= j < n ==> t[c][j] == if j == c then 1.0 else 0.0
    ensures Dot(n, a, t, r, c, m) == if c < m then a[c][r] else 0.0
  {
    if m > 0 {
      DotUnitColumn(n, a, t, r, c, m - 1);
    }
  }

  // ---------------------------------------------------------------------------
  // Algebraic laws

  /** I * a == a. */
  lemma IdentityLeftNeutral(n: int, a: Matrix)
    requires IsSquare(n, a)
    ensures Product(n, Identity(n), a) == a
  {
    var p := Product(n, Identity(n), a);
    forall c, r | 0 <= c < n && 0 <= r < n
      ensures p[c][r] == a[c][r]
    {
      DotDiagonalRow(n, Identity(n), a, r, c, n, 1.0);
    }
    Extensionality(n, p, a);
  }

  /** a * I == a. */
  lemma IdentityRightNeutral(n: int, a: Matrix)
    requires IsSquare(n, a)
    ensures Product(n, a, Identity(n)) == a
  {
    var p := Product(n, a, Identity(n));
    forall c, r | 0 <= c < n && 0 <= r < n
      ensures p[c][r] == a[c][r]
    {
      DotUnitColumn(n, a, Identity(n), r, c, n);
    }
    Extensionality(n, p, a);
  }

  /** a + a == a * 2. */
  lemma SumSelfIsDouble(n: int, a: Matrix)
    requires IsSquare(n, a)
    ensures Sum(n, a, a) == Scaled(n, a, 2.0)
  {
    Extensionality(n, Sum(n, a, a), Scaled(n, a, 2.0));
  }

  // ---------------------------------------------------------------------------
  // Associativity of the product: both (a * b) * d and a * (b * d) have at
  // (r, c) the double sum of a(r, j) * b(j, k) * d(k, c), one summing over k
  // first and the other over j first.

  /** One term of the (r, c) entry of a * b * d. */
  function Term(n: int, a: Matrix, b: Matrix, d: Matrix, r: int, c: int, j: int, k: int): real
    requires IsSquare(n, a) && IsSquare(n, b) && IsSquare(n, d)
    requires 0 <= r < n && 0 <= c < n && 0 <= j < n && 0 <= k < n
  {
    a[j][r] * b[k][j] * d[c][k]
  }

  /** The terms with inner index j, summed over k < q. */
  function RowTerms(n: int, a: Matrix, b: Matrix, d: Matrix, r: int, c: int, j: int, q: int): real
    requires IsSquare(n, a) && IsSquare(n, b) && IsSquare(n, d)
    requires 0 <= r < n && 0 <= c < n && 0 <= j < n && 0 <= q <= n
    decreases q
  {
    if q == 0 then 0.0 else RowTerms(n, a, b, d, r, c, j, q - 1) + Term(n, a, b, d, r, c, j, q - 1)
  }

  /** The terms with inner index k, summed over j < p. */
  function ColTerms(n: int, a: Matrix, b: Matrix, d: Matrix, r: int, c: int, k: int, p: int): real
    requires IsSquare(n, a) && IsSquare(n, b) && IsSquare(n, d)
    requires 0 <= r < n && 0 <= c < n && 0 <= k < n && 0 <= p <= n
    decreases p
  {
    if p == 0 then 0.0 else ColTerms(n, a, b, d, r, c, k, p - 1) + Term(n, a, b, d, r, c, p - 1, k)
  }

  /** The terms with j < p and k < q, summed over k inside j. */
  function RowsFirst(n: int, a: Matrix, b: Matrix, d: Matrix, r: int, c: int, p: int, q: int): real
    requires IsSquare(n, a) && IsSquare(n, b) && IsSquare(n, d)
    requires 0 <= r < n && 0 <= c < n && 0 <= p <= n && 0 <= q <= n
    decreases p
  {
    if p == 0 then 0.0 else RowsFirst(n, a, b, d, r, c, p - 1, q) + RowTerms(n, a, b, d, r, c, p - 1, q)
  }

  /** The terms with j < p and k < q, summed over j inside k. */
  function ColsFirst(n: int, a: Matrix, b: Matrix, d: Matrix, r: int, c: int, p: int, q: int): real
    requires IsSquare(n, a) && IsSquare(n, b) && IsSquare(n, d)
    requires 0 <= r < n && 0 <= c < n && 0 <= p <= n && 0 <= q <= n
    decreases q
  {
    if q == 0 then 0.0 else ColsFirst(n, a, b, d, r, c, p, q - 1) + ColTerms(n, a, b, d, r, c, q - 1, p)
  }

  /** Taking the last k out of every row sum takes out one column sum. */
  lemma {:induction false} RowsFirstStep(n: int, a: Matrix, b: Matrix, d: Matrix, r: int, c: int, p: int, q: int)
    requires IsSquare(n, a) && IsSquare(n, b) && IsSquare(n, d)
    requires 0 <= r < n && 0 <= c < n && 0 <= p <= n && 0 < q <= n
    ensures RowsFirst(n, a, b, d, r, c, p, q) ==
      RowsFirst(n, a, b, d, r, c, p, q - 1) + ColTerms(n, a, b, d, r, c, q - 1, p)
    decreases p
  {
    if p > 0 {
      RowsFirstStep(n, a, b, d, r, c, p - 1, q);
    }
  }

  /** The two orders of summation agree. */
  lemma {:induction false} SumsSwap(n: int, a: Matrix, b: Matrix, d: Matrix, r: int, c: int, p: int, q: int)
    requires IsSquare(n, a) && IsSquare(n, b) && IsSquare(n, d)
    requires 0 <= r < n && 0 <= c < n && 0 <= p <= n && 0 <= q <= n
    ensures RowsFirst(n, a, b, d, r, c, p, q) == ColsFirst(n, a, b, d, r, c, p, q)
    decreases q
  {
    if q == 0 {
      RowsFirstZero(n, a, b, d, r, c, p);
    } else {
      RowsFirstStep(n, a, b, d, r, c, p, q);
      SumsSwap(n, a, b, d, r, c, p, q - 1);
    }
  }

  /** With no k at all every row sum is empty. */
  lemma {:induction false} RowsFirstZero(n: int, a: Matrix, b: Matrix, d: Matrix, r: int, c: int, p: int)
    requires IsSquare(n, a) && IsSquare(n, b) && IsSquare(n, d)
    requires 0 <= r < n && 0 <= c < n && 0 <= p <= n
    ensures RowsFirst(n, a, b, d, r, c, p, 0) == 0.0
    decreases p
  {
    if p > 0 {
      RowsFirstZero(n, a, b, d, r, c, p - 1);
    }
  }

  /** An entry of a * b times d(k, c) is the column sum at k. */
  lemma {:induction false} LeftDotTerms(n: int, a: Matrix, b: Matrix, d: Matrix, r: int, c: int, k: int, p: int)
    requires IsSquare(n, a) && IsSquare(n, b) && IsSquare(n, d)
    requires 0 <= r < n && 0 <= c < n && 0 <= k < n && 0 <= p <= n
    ensures Dot(n, a, b, r, k, p) * d[c][k] == ColTerms(n, a, b, d, r, c, k, p)
    decreases p
  {
    if p > 0 {
      LeftDotTerms(n, a, b, d, r, c, k, p - 1);
      var x, y, z := a[p - 1][r], b[k][p - 1], d[c][k];
      var rest := Dot(n, a, b, r, k, p - 1);
      assert Dot(n, a, b, r, k, p) == rest + x * y;
      assert (rest + x * y) * z == rest * z + x * y * z;
    }
  }

  /** a(r, j) times an entry of b * d is the row sum at j. */
  lemma {:induction false} RightDotTerms(n: int, a: Matrix, b: Matrix, d: Matrix, r: int, c: int, j: int, q: int)
    requires IsSquare(n, a) && IsSquare(n, b) && IsSquare(n, d)
    requires 0 <= r < n && 0 <= c < n && 0 <= j < n && 0 <= q <= n
    ensures a[j][r] * Dot(n, b, d, j, c, q) == RowTerms(n, a, b, d, r, c, j, q)
    decreases q
  {
    if q > 0 {
      RightDotTerms(n, a, b, d, r, c, j, q - 1);
      var x, y, z := a[j][r], b[q - 1][j], d[c][q - 1];
      var rest := Dot(n, b, d, j, c, q - 1);
      assert Dot(n, b, d, j, c, q) == rest + y * z;
      assert x * (rest + y * z) == x * rest + x * y * z;
    }
  }

  /** The (r, c) entry of (a * b) * d, summed over k outside. */
  lemma {:induction false} ProductLeftTerms(n: int, a: Matrix, b: Matrix, d: Matrix, r: int, c: int, q: int)
    requires IsSquare(n, a) && IsSquare(n, b) && IsSquare(n, d)
    requires 0 <= r < n && 0 <= c < n && 0 <= q <= n
    ensures Dot(n, Product(n, a, b), d, r, c, q) == ColsFirst(n, a, b, d, r, c, n, q)
    decreases q
  {
    if q > 0 {
      ProductLeftTerms(n, a, b, d, r, c, q - 1);
      LeftDotTerms(n, a, b, d, r, c, q - 1, n);
      assert Product(n, a, b)[q - 1][r] == Dot(n, a, b, r, q - 1, n);
    }
  }

  /** The (r, c) entry of a * (b * d), summed over j outside. */
  lemma {:induction false} ProductRightTerms(n: int, a: Matrix, b: Matrix, d: Matrix, r: int, c: int, p: int)
    requires IsSquare(n, a) && IsSquare(n, b) && IsSquare(n, d)
    requires 0 <= r < n && 0 <= c < n && 0 <= p <= n
    ensures Dot(n, a, Product(n, b, d), r, c, p) == RowsFirst(n, a, b, d, r, c, p, n)
    decreases p
  {
    if p > 0 {
      ProductRightTerms(n, a, b, d, r, c, p - 1);
      RightDotTerms(n, a, b, d, r, c, p - 1, n);
      assert Product(n, b, d)[c][p - 1] == Dot(n, b, d, p - 1, c, n);
    }
  }

  /** (a * b) * d == a * (b * d): a chain of left-multiplications is one
      left-multiplication by the composed transform. */
  lemma ProductAssociative(n: int, a: Matrix, b: Matrix, d: Matrix)
    requires IsSquare(n, a) && IsSquare(n, b) && IsSquare(n, d)
    ensures Product(n, Product(n, a, b), d) == Product(n, a, Product(n, b, d))
  {
    var left, right := Product(n, Product(n, a, b), d), Product(n, a, Product(n, b, d));
    forall c, r | 0 <= c < n && 0 <= r < n
      ensures left[c][r] == right[c][r]
    {
      ProductLeftTerms(n, a, b, d, r, c, n);
      ProductRightTerms(n, a, b, d, r, c, n);
      SumsSwap(n, a, b, d, r, c, n, n);
    }
    Extensionality(n, left, right);
  }

  /** Two square buffers of the same size have the same dimension. */
  lemma SameSizeSameDimension(n: int, m: int)
    requires 0 < n && 0 < m && Cells(n) == Cells(m)
    ensures n == m
  {
    CellsIsSquare(n);
    CellsIsSquare(m);
    if n < m {
      MulMonotone(n + 1, m, n);
      MulMonotone(n, m, m);
      assert false;
    } else if m < n {
      MulMonotone(m + 1, n, m);
      MulMonotone(m, n, n);
      assert false;
    }
  }
}
