/** The GLMatrix type of glMatrix.js: a square matrix whose entries live in one
    flat, column-major buffer. Mutating operations change the receiver in
    place and hand it back for chaining; `Add` and `Mul` allocate a new
    matrix and leave both operands alone (none of them has a modifies clause
    naming an operand). */
module GL {
  import M = Matrices
  import T = Transforms


  /** The three exceptions glMatrix.js throws. */
  datatype Error =
    | SizeMismatch        // "Different matrices size"
    | InvalidOperandType  // "Invalid parameter type"
    | DimensionError      // "Wrong matrix dimension"

  datatype Result<R> = Ok(value: R) | Err(error: Error)

  /** The right operand of `mul`: another matrix, a number, or anything else. */
  datatype Operand = Mat(matrix: GLMatrix) | Scalar(factor: real) | Other

  class GLMatrix {
    const dimension: int
    const size: int
    var elements: array<real>

    /** The object invariant: size is dimension squared and the buffer holds
        exactly size entries. */
    ghost predicate Valid()
      reads this
    {
      0 < dimension && size == M.Cells(dimension) && elements.Length == size
    }

    /** The matrix the buffer holds, column by column. */
    ghost function Value(): (m: M.Matrix)
      reads this, elements
      requires Valid()
    {
      M.Columns(dimension, elements[..])
    }

    /** A zero-filled matrix of the given dimension. */
    constructor (dimension: int)
      requires 0 < dimension
      ensures Valid() && this.dimension == dimension && fresh(elements)
      ensures forall k :: 0 <= k < size ==> elements[k] == 0.0
      ensures Value() == M.Zeros(dimension)
    {
      this.dimension := dimension;
      size := dimension * dimension;
      M.CellsIsSquare(dimension);
      elements := new real[dimension * dimension];
      new;
      var _ := Empty();
    }

    /** The entry at (row, col): by the layout, Value()[col][row]. */
    function Get(row: int, col: int): (v: real)
      reads this, elements
      requires Valid() && 0 <= row < dimension && 0 <= col < dimension
    {
      elements[M.Idx(dimension, row, col)]
    }

    /** Get reads the matrix value: the entry at (row, col) is row row of
        column col, which Set writes. */
    lemma GetIsEntry(row: int, col: int)
      requires Valid() && 0 <= row < dimension && 0 <= col < dimension
      ensures Get(row, col) == Value()[col][row]
    {
    }

    /** Writes one entry; every other entry keeps its value. */
    method Set(row: int, col: int, value: real) returns (self: GLMatrix)
      requires Valid() && 0 <= row < dimension && 0 <= col < dimension
      modifies elements
      ensures self == this && Valid()
      ensures Value() == M.Put(dimension, old(Value()), row, col, value)
    {
      M.ColumnsOfUpdate(dimension, elements[..], row, col, value);
      elements[M.Idx(dimension, row, col)] := value;
      self := this;
    }

    /** Overwrites every entry with 0. */
    method Empty() returns (self: GLMatrix)
      requires Valid()
      modifies elements
      ensures self == this && Valid()
      ensures forall k :: 0 <= k < size ==> elements[k] == 0.0
      ensures Value() == M.Zeros(dimension)
    {
      var index := 0;
      while index < size
        invariant 0 <= index <= size
        invariant forall k :: 0 <= k < index ==> elements[k] == 0.0
      {
        elements[index] := 0.0;
        index := index + 1;
      }
      M.Extensionality(dimension, Value(), M.Zeros(dimension));
      self := this;
    }

    /** Resets the receiver to the identity matrix. */
    method Identity() returns (self: GLMatrix)
      requires Valid()
      modifies elements
      ensures self == this && Valid()
      ensures Value() == M.Identity(dimension)
    {
      var _ := Empty();
      var index := 0;
      while index < dimension
        invariant 0 <= index <= dimension && Valid()
        invariant forall c, r :: 0 <= c < dimension && 0 <= r < dimension ==>
          Value()[c][r] == if r == c && c < index then 1.0 else 0.0
      {
        var _ := Set(index, index, 1.0);
        index := index + 1;
      }
      M.Extensionality(dimension, Value(), M.Identity(dimension));
      self := this;
    }

    /** A fresh identity matrix of the given dimension. */
    static method IdentityMatrix(dimension: int) returns (mat: GLMatrix)
      requires 0 < dimension
      ensures fresh(mat) && fresh(mat.elements) && mat.Valid() && mat.dimension == dimension
      ensures mat.Value() == M.Identity(dimension)
    {
      mat := new GLMatrix(dimension);
      var index := 0;
      while index < dimension
        invariant 0 <= index <= dimension
        invariant fresh(mat) && fresh(mat.elements) && mat.Valid() && mat.dimension == dimension
        invariant forall c, r :: 0 <= c < dimension && 0 <= r < dimension ==>
          mat.Value()[c][r] == if r == c && c < index then 1.0 else 0.0
      {
        var _ := mat.Set(index, index, 1.0);
        index := index + 1;
      }
      M.Extensionality(dimension, mat.Value(), M.Identity(dimension));
    }

    /** A fresh 4-by-4 orthographic projection of the box
        [xl, xr] x [yd, yu] x [zn, zf]. */
    static method Orthographic(xl: real, xr: real, yd: real, yu: real, zn: real, zf: real) returns (mat: GLMatrix)
      requires xl != xr && yd != yu && zn != zf
      ensures fresh(mat) && fresh(mat.elements) && mat.Valid() && mat.dimension == 4
      ensures mat.Value() == T.Orthographic(4, xl, xr, yd, yu, zn, zf)
    {
      mat := new GLMatrix(4);
      var _ := mat.SetOrthographic(xl, xr, yd, yu, zn, zf);
    }

    /** A fresh 4-by-4 frustum projection. */
    static method Frustum(xl: real, xr: real, yd: real, yu: real, zn: real, zf: real) returns (mat: GLMatrix)
      requires xl != xr && yd != yu && zn != zf
      ensures fresh(mat) && fresh(mat.elements) && mat.Valid() && mat.dimension == 4
      ensures mat.Value() == T.Frustum(4, xl, xr, yd, yu, zn, zf)
    {
      mat := new GLMatrix(4);
      var _ := mat.SetFrustum(xl, xr, yd, yu, zn, zf);
    }

    /** A fresh 4-by-4 perspective projection; tangent is the tangent of half
        the vertical field of view. */
    static method Perspective(tangent: real, aspect: real, zn: real, zf: real) returns (mat: GLMatrix)
      requires zn * tangent != 0.0 && aspect != 0.0 && zn != zf
      ensures fresh(mat) && fresh(mat.elements) && mat.Valid() && mat.dimension == 4
      ensures mat.Value() == T.Perspective(4, tangent, aspect, zn, zf)
    {
      mat := new GLMatrix(4);
      var _ := mat.SetPerspective(tangent, aspect, zn, zf);
    }

    /** The entrywise sum, as a new matrix; fails when the sizes differ. */
    method Add(right: GLMatrix) returns (r: Result<GLMatrix>)
      requires Valid() && right.Valid()
      ensures size != right.size ==> r == Err(SizeMismatch)
      ensures size == right.size ==>
        r.Ok? && fresh(r.value) && fresh(r.value.elements) && r.value.Valid() &&
        r.value.dimension == dimension == right.dimension &&
        (forall i :: 0 <= i < size ==> r.value.elements[i] == elements[i] + right.elements[i]) &&
        r.value.Value() == M.Sum(dimension, Value(), right.Value())
    {
      if size != right.size {
        return Err(SizeMismatch);
      }
      M.SameSizeSameDimension(dimension, right.dimension);
      var result := new GLMatrix(dimension);
      var index := 0;
      while index < size
        invariant 0 <= index <= size
        invariant forall i :: 0 <= i < index ==> result.elements[i] == elements[i] + right.elements[i]
        modifies result.elements
      {
        result.elements[index] := elements[index] + right.elements[index];
        index := index + 1;
      }
      M.Extensionality(dimension, result.Value(), M.Sum(dimension, Value(), right.Value()));
      return Ok(result);
    }

    /** The product with a matrix, or with a number, as a new matrix; fails
        when the matrix sizes differ or the operand is neither. */
    method Mul(right: Operand) returns (r: Result<GLMatrix>)
      requires Valid() && (right.Mat? ==> right.matrix.Valid())
      ensures right.Mat? && size != right.matrix.size ==> r == Err(SizeMismatch)
      ensures right.Mat? && size == right.matrix.size ==>
        r.Ok? && fresh(r.value) && fresh(r.value.elements) && r.value.Valid() &&
        r.value.dimension == dimension == right.matrix.dimension &&
        r.value.Value() == M.Product(dimension, Value(), right.matrix.Value())
      ensures right.Scalar? ==>
        r.Ok? && fresh(r.value) && fresh(r.value.elements) && r.value.Valid() &&
        r.value.dimension == dimension &&
        (forall i :: 0 <= i < size ==> r.value.elements[i] == elements[i] * right.factor) &&
        r.value.Value() == M.Scaled(dimension, Value(), right.factor)
      ensures right.Other? ==> r == Err(InvalidOperandType)
    {
      var result := new GLMatrix(dimension);
      match right
      case Mat(other) =>
        if size != other.size {
          return Err(SizeMismatch);
        }
        M.SameSizeSameDimension(dimension, other.dimension);
        MulInto(other, result);
        return Ok(result);
      case Scalar(factor) =>
        var index := 0;
        while index < size
          invariant 0 <= index <= size
          invariant forall i :: 0 <= i < index ==> result.elements[i] == elements[i] * factor
          modifies result.elements
        {
          result.elements[index] := elements[index] * factor;
          index := index + 1;
        }
        M.Extensionality(dimension, result.Value(), M.Scaled(dimension, Value(), factor));
        return Ok(result);
      case Other =>
        return Err(InvalidOperandType);
    }

    /** The triple loop of `mul`: accumulates this * other into the zero
        matrix result, one column of result after the other. */
    method MulInto(other: GLMatrix, result: GLMatrix)
      requires Valid() && other.Valid() && result.Valid()
      requires other.dimension == dimension && result.dimension == dimension
      requires result.elements != elements && result.elements != other.elements
      requires forall j :: 0 <= j < result.size ==> result.elements[j] == 0.0
      modifies result.elements
      ensures result.Valid()
      ensures result.Value() == M.Product(dimension, Value(), other.Value())
    {
      ghost var e, f := elements[..], other.elements[..];
      var rightCol := 0;
      while rightCol < dimension
        invariant 0 <= rightCol <= dimension && result.Valid()
        invariant elements[..] == e && other.elements[..] == f
        invariant forall c, r :: 0 <= c < rightCol && 0 <= r < dimension ==>
          result.elements[M.Idx(dimension, r, c)] == M.BufferDot(dimension, e, f, r, c, dimension)
        invariant forall c, r :: rightCol <= c < dimension && 0 <= r < dimension ==>
          result.elements[M.Idx(dimension, r, c)] == 0.0
      {
        MulColumn(other, result, rightCol);
        rightCol := rightCol + 1;
      }
      ghost var p := M.Product(dimension, M.Columns(dimension, e), M.Columns(dimension, f));
      forall c, r | 0 <= c < dimension && 0 <= r < dimension
        ensures result.Value()[c][r] == p[c][r]
      {
        M.BufferDotIsDot(dimension, e, f, r, c, dimension);
      }
      M.Extensionality(dimension, result.Value(), p);
    }

    /** The middle loop of `mul`: completes column rightCol of result and
        leaves every other column alone. */
    method MulColumn(other: GLMatrix, result: GLMatrix, rightCol: int)
      requires Valid() && other.Valid() && result.Valid()
      requires other.dimension == dimension && result.dimension == dimension
      requires result.elements != elements && result.elements != other.elements
      requires 0 <= rightCol < dimension
      requires forall r :: 0 <= r < dimension ==> result.elements[M.Idx(dimension, r, rightCol)] == 0.0
      modifies result.elements
      ensures result.Valid()
      ensures forall r :: 0 <= r < dimension ==>
        result.elements[M.Idx(dimension, r, rightCol)] ==
          M.BufferDot(dimension, elements[..], other.elements[..], r, rightCol, dimension)
      ensures forall c, r :: 0 <= c < dimension && c != rightCol && 0 <= r < dimension ==>
        result.elements[M.Idx(dimension, r, c)] == old(result.elements[M.Idx(dimension, r, c)])
    {
      ghost var e, f, before := elements[..], other.elements[..], result.elements[..];
      var row := 0;
      while row < dimension
        invariant 0 <= row <= dimension && result.Valid()
        invariant result.elements[..] == M.FillColumn(dimension, e, f, before, rightCol, row)
      {
        M.FillColumnAt(dimension, e, f, before, rightCol, row, row, rightCol);
        AccumulateEntry(other, result, row, rightCol);
        row := row + 1;
      }
      forall c, r | 0 <= c < dimension && 0 <= r < dimension
        ensures result.elements[M.Idx(dimension, r, c)] ==
          if c == rightCol then M.BufferDot(dimension, e, f, r, rightCol, dimension) else before[M.Idx(dimension, r, c)]
      {
        M.FillColumnAt(dimension, e, f, before, rightCol, dimension, r, c);
      }
    }

    /** The innermost loop of `mul`: adds this(row, col) * other(col, rightCol)
        to result(row, rightCol) for col = 0, 1, ..., dimension - 1. */
    method AccumulateEntry(other: GLMatrix, result: GLMatrix, row: int, rightCol: int)
      requires Valid() && other.Valid() && result.Valid()
      requires other.dimension == dimension && result.dimension == dimension
      requires result.elements != elements && result.elements != other.elements
      requires 0 <= row < dimension && 0 <= rightCol < dimension
      requires result.Get(row, rightCol) == 0.0
      modifies result.elements
      ensures result.Valid()
      ensures result.elements[..] == old(result.elements[..])[M.Idx(dimension, row, rightCol) :=
        M.BufferDot(dimension, elements[..], other.elements[..], row, rightCol, dimension)]
    {
      ghost var before := result.elements[..];
      ghost var k := M.Idx(dimension, row, rightCol);
      assert before[k := 0.0] == before;
      var col := 0;
      while col < dimension
        invariant 0 <= col <= dimension && result.Valid()
        invariant result.elements[..] == before[k := M.BufferDot(dimension, elements[..], other.elements[..], row, rightCol, col)]
      {
        AccumulateTerm(other, result, row, rightCol, col);
        col := col + 1;
      }
    }

    /** One pass of the innermost loop of `mul`: result(row, rightCol) +=
        this(row, col) * other(col, rightCol). */
    method AccumulateTerm(other: GLMatrix, result: GLMatrix, row: int, rightCol: int, col: int)
      requires Valid() && other.Valid() && result.Valid()
      requires other.dimension == dimension && result.dimension == dimension
      requires result.elements != elements && result.elements != other.elements
      requires 0 <= row < dimension && 0 <= rightCol < dimension && 0 <= col < dimension
      requires result.Get(row, rightCol) == M.BufferDot(dimension, elements[..], other.elements[..], row, rightCol, col)
      modifies result.elements
      ensures result.Valid()
      ensures result.elements[..] == old(result.elements[..])[M.Idx(dimension, row, rightCol) :=
        M.BufferDot(dimension, elements[..], other.elements[..], row, rightCol, col + 1)]
    {
      var sum, x, y := result.Get(row, rightCol), Get(row, col), other.Get(col, rightCol);
      M.BufferDotStep(dimension, elements[..], other.elements[..], row, rightCol, col, sum, x, y);
      ghost var before := result.elements[..];
      var _ := result.Set(row, rightCol, sum + x * y);
      M.PutIsUpdate(dimension, before, result.elements[..], row, rightCol, sum + x * y);
    }

    /** Left-multiplies the receiver by the translation by (x, y, z); needs
        dimension 4 or more. */
    method Translate(x: real, y: real, z: real) returns (r: Result<GLMatrix>)
      requires Valid()
      modifies this
      ensures Valid()
      ensures dimension < 4 ==> r == Err(DimensionError) && elements == old(elements)
      ensures 4 <= dimension ==>
        r == Ok(this) && Value() == M.Product(dimension, T.Translation(dimension, x, y, z), old(Value())) &&
        fresh(elements)
    {
      if dimension < 4 {
        return Err(DimensionError);
      }
      var transform := IdentityMatrix(dimension);
      var _ := transform.Set(0, 3, x);
      var _ := transform.Set(1, 3, y);
      var _ := transform.Set(2, 3, z);
      T.TranslationBySets(dimension, x, y, z);
      var product := transform.Mul(Mat(this));
      elements := product.value.elements;
      return Ok(this);
    }

    /** Left-multiplies the receiver by the scaling by (x, y, z); needs
        dimension 3 or more. */
    method Scale(x: real, y: real, z: real) returns (r: Result<GLMatrix>)
      requires Valid()
      modifies this
      ensures Valid()
      ensures dimension < 3 ==> r == Err(DimensionError) && elements == old(elements)
      ensures 3 <= dimension ==>
        r == Ok(this) && Value() == M.Product(dimension, T.Scaling(dimension, x, y, z), old(Value())) &&
        fresh(elements)
    {
      if dimension < 3 {
        return Err(DimensionError);
      }
      var transform := IdentityMatrix(dimension);
      var _ := transform.Set(0, 0, x);
      var _ := transform.Set(1, 1, y);
      var _ := transform.Set(2, 2, z);
      T.ScalingBySets(dimension, x, y, z);
      var product := transform.Mul(Mat(this));
      elements := product.value.elements;
      return Ok(this);
    }

    /** Left-multiplies the receiver by the rotation about the axis
        (x, y, z) whose sine and cosine are given; magnitude is the length of
        the axis, by which it is normalised. Needs dimension 3 or more. */
    method Rotate(sine: real, cosine: real, magnitude: real, x: real, y: real, z: real) returns (r: Result<GLMatrix>)
      requires Valid()
      requires 3 <= dimension ==> 0.0 < magnitude && magnitude * magnitude == x * x + y * y + z * z
      modifies this
      ensures Valid()
      ensures dimension < 3 ==> r == Err(DimensionError) && elements == old(elements)
      ensures 3 <= dimension ==>
        r == Ok(this) &&
        Value() == M.Product(dimension,
          T.Rotation(dimension, sine, cosine, x / magnitude, y / magnitude, z / magnitude), old(Value())) &&
        fresh(elements)
    {
      if dimension < 3 {
        return Err(DimensionError);
      }
      var ux, uy, uz := x / magnitude, y / magnitude, z / magnitude;
      var axis := AxisMatrix(dimension, ux, uy, uz);
      var rotation := RotationOf(axis, sine, cosine);
      var product := rotation.Mul(Mat(this));
      elements := product.value.elements;
      return Ok(this);
    }

    /** The skew matrix K of the axis (ux, uy, uz) that `rotate` writes into
        a fresh zero matrix with six `set` calls. */
    static method AxisMatrix(dimension: int, ux: real, uy: real, uz: real) returns (axis: GLMatrix)
      requires 3 <= dimension
      ensures fresh(axis) && axis.Valid() && axis.dimension == dimension
      ensures axis.Value() == T.Skew(dimension, ux, uy, uz)
    {
      axis := new GLMatrix(dimension);
      axis.SkewSets(ux, uy, uz);
      T.SkewBySets(dimension, ux, uy, uz);
    }

    /** The six `set` calls of `rotate` on its axis matrix. */
    method SkewSets(ux: real, uy: real, uz: real)
      requires Valid() && 3 <= dimension
      modifies elements
      ensures Valid()
      ensures Value() == M.Put(dimension, M.Put(dimension, M.Put(dimension, M.Put(dimension, M.Put(dimension,
        M.Put(dimension, old(Value()), 0, 1, -uz), 0, 2, uy), 1, 2, -ux), 1, 0, uz), 2, 0, -uy), 2, 1, ux)
    {
      var _ := Set(0, 1, -uz);
      var _ := Set(0, 2, uy);
      var _ := Set(1, 2, -ux);
      var _ := Set(1, 0, uz);
      var _ := Set(2, 0, -uy);
      var _ := Set(2, 1, ux);
    }

    /** The sum I + sine K + (1 - cosine) K K that `rotate` builds from the
        skew matrix K of its axis, as a new matrix. */
    static method RotationOf(axis: GLMatrix, sine: real, cosine: real) returns (rotation: GLMatrix)
      requires axis.Valid()
      ensures fresh(rotation) && rotation.Valid() && rotation.dimension == axis.dimension
      ensures rotation.Value() == M.Sum(axis.dimension,
        M.Sum(axis.dimension, M.Identity(axis.dimension), M.Scaled(axis.dimension, axis.Value(), sine)),
        M.Scaled(axis.dimension, M.Product(axis.dimension, axis.Value(), axis.Value()), 1.0 - cosine))
    {
      var identity := IdentityMatrix(axis.dimension);
      var sk := axis.Mul(Scalar(sine));
      var first := identity.Add(sk.value);
      var kk := axis.Mul(Mat(axis));
      var kkScaled := kk.value.Mul(Scalar(1.0 - cosine));
      var sum := first.value.Add(kkScaled.value);
      rotation := sum.value;
    }

    /** Overwrites the receiver with the orthographic projection of the box
        [xl, xr] x [yd, yu] x [zn, zf]; needs dimension 4 or more. */
    method SetOrthographic(xl: real, xr: real, yd: real, yu: real, zn: real, zf: real) returns (r: Result<GLMatrix>)
      requires Valid()
      requires 4 <= dimension ==> xl != xr && yd != yu && zn != zf
      modifies elements
      ensures Valid()
      ensures dimension < 4 ==> r == Err(DimensionError) && elements[..] == old(elements[..])
      ensures 4 <= dimension ==> r == Ok(this) && Value() == T.Orthographic(dimension, xl, xr, yd, yu, zn, zf)
    {
      if dimension < 4 {
        return Err(DimensionError);
      }
      var _ := Identity();
      OrthographicSets(xl, xr, yd, yu, zn, zf);
      T.OrthographicBySets(dimension, xl, xr, yd, yu, zn, zf);
      return Ok(this);
    }

    /** The six `set` calls of `setOrthographic`, which follow its call of
        `identity`. */
    method OrthographicSets(xl: real, xr: real, yd: real, yu: real, zn: real, zf: real)
      requires Valid() && 4 <= dimension && xl != xr && yd != yu && zn != zf
      modifies elements
      ensures Valid()
      ensures
        var xHalf, yHalf, zHalf := T.Half(xl, xr), T.Half(yd, yu), T.Half(zn, zf);
        Value() == M.Put(dimension, M.Put(dimension, M.Put(dimension, M.Put(dimension, M.Put(dimension, M.Put(dimension,
          old(Value()), 0, 0, 1.0 / xHalf), 1, 1, 1.0 / yHalf), 2, 2, 1.0 / zHalf),
          0, 3, -xl / xHalf - 1.0), 1, 3, -yd / yHalf - 1.0), 2, 3, -zn / zHalf - 1.0)
    {
      var xHalf, yHalf, zHalf := T.Half(xl, xr), T.Half(yd, yu), T.Half(zn, zf);
      var _ := Set(0, 0, 1.0 / xHalf);
      var _ := Set(1, 1, 1.0 / yHalf);
      var _ := Set(2, 2, 1.0 / zHalf);
      var _ := Set(0, 3, -xl / xHalf - 1.0);
      var _ := Set(1, 3, -yd / yHalf - 1.0);
      var _ := Set(2, 3, -zn / zHalf - 1.0);
    }

    /** Overwrites the receiver with the frustum projection; needs dimension
        4 or more. */
    method SetFrustum(xl: real, xr: real, yd: real, yu: real, zn: real, zf: real) returns (r: Result<GLMatrix>)
      requires Valid()
      requires 4 <= dimension ==> xl != xr && yd != yu && zn != zf
      modifies elements
      ensures Valid()
      ensures dimension < 4 ==> r == Err(DimensionError) && elements[..] == old(elements[..])
      ensures 4 <= dimension ==> r == Ok(this) && Value() == T.Frustum(dimension, xl, xr, yd, yu, zn, zf)
    {
      if dimension < 4 {
        return Err(DimensionError);
      }
      var _ := Empty();
      FrustumSets(xl, xr, yd, yu, zn, zf);
      T.FrustumBySets(dimension, xl, xr, yd, yu, zn, zf);
      return Ok(this);
    }

    /** The eight `set` calls of `setFrustum`, which follow its call of
        `empty`: four on rows 0 and 1, then four on rows 2 and 3. */
    method FrustumSets(xl: real, xr: real, yd: real, yu: real, zn: real, zf: real)
      requires Valid() && 4 <= dimension && xl != xr && yd != yu && zn != zf
      modifies elements
      ensures Valid()
      ensures
        var xHalf, yHalf, zHalf := T.Half(xl, xr), T.Half(yd, yu), T.Half(zn, zf);
        Value() == M.Put(dimension, M.Put(dimension, M.Put(dimension, M.Put(dimension,
          M.Put(dimension, M.Put(dimension, M.Put(dimension, M.Put(dimension,
          old(Value()), 0, 0, zn / xHalf), 1, 1, zn / yHalf),
          0, 2, -xl / xHalf - 1.0), 1, 2, -yd / yHalf - 1.0), 2, 2, zn / zHalf + 1.0),
          2, 3, -(zn * zf / zHalf)), 3, 2, 1.0), 3, 3, 0.0)
    {
      FrustumSideSets(xl, xr, yd, yu, zn);
      FrustumDepthSets(zn, zf);
    }

    /** The first four `set` calls of `setFrustum`: the x and y rows. */
    method FrustumSideSets(xl: real, xr: real, yd: real, yu: real, zn: real)
      requires Valid() && 4 <= dimension && xl != xr && yd != yu
      modifies elements
      ensures Valid()
      ensures
        var xHalf, yHalf := T.Half(xl, xr), T.Half(yd, yu);
        Value() == M.Put(dimension, M.Put(dimension, M.Put(dimension, M.Put(dimension,
          old(Value()), 0, 0, zn / xHalf), 1, 1, zn / yHalf),
          0, 2, -xl / xHalf - 1.0), 1, 2, -yd / yHalf - 1.0)
    {
      var xHalf, yHalf := T.Half(xl, xr), T.Half(yd, yu);
      var _ := Set(0, 0, zn / xHalf);
      var _ := Set(1, 1, zn / yHalf);
      var _ := Set(0, 2, -xl / xHalf - 1.0);
      var _ := Set(1, 2, -yd / yHalf - 1.0);
    }

    /** The last four `set` calls of `setFrustum`: the z and w rows. */
    method FrustumDepthSets(zn: real, zf: real)
      requires Valid() && 4 <= dimension && zn != zf
      modifies elements
      ensures Valid()
      ensures
        var zHalf := T.Half(zn, zf);
        Value() == M.Put(dimension, M.Put(dimension, M.Put(dimension, M.Put(dimension,
          old(Value()), 2, 2, zn / zHalf + 1.0), 2, 3, -(zn * zf / zHalf)), 3, 2, 1.0), 3, 3, 0.0)
    {
      var zHalf := T.Half(zn, zf);
      var _ := Set(2, 2, zn / zHalf + 1.0);
      var _ := Set(2, 3, -(zn * zf / zHalf));
      var _ := Set(3, 2, 1.0);
      var _ := Set(3, 3, 0.0);
    }

    /** Overwrites the receiver with the symmetric perspective projection;
        tangent is the tangent of half the vertical field of view. The error
        comes from setFrustum, when the dimension is below 4. */
    method SetPerspective(tangent: real, aspect: real, zn: real, zf: real) returns (r: Result<GLMatrix>)
      requires Valid()
      requires 4 <= dimension ==> zn * tangent != 0.0 && aspect != 0.0 && zn != zf
      modifies elements
      ensures Valid()
      ensures dimension < 4 ==> r == Err(DimensionError) && elements[..] == old(elements[..])
      ensures 4 <= dimension ==> r == Ok(this) && Value() == T.Perspective(dimension, tangent, aspect, zn, zf)
    {
      var yUp := zn * tangent;
      var yDown := -yUp;
      var xLeft := yDown * aspect;
      var xRight := -xLeft;
      assert xLeft == -(zn * tangent) * aspect;
      r := SetFrustum(xLeft, xRight, yDown, yUp, zn, zf);
    }
  }
}
