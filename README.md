# glMatrix.js in Dafny

A model of `GLMatrix`, the square-matrix type of glMatrix.js, a small helper
for WebGL programs. A `GLMatrix` has a `dimension` n, a `size` n², and a flat
buffer `elements` that holds the entries column by column: entry (row, col)
sits at `col * n + row`. What the class offers:

- `get` and `set` read and write single entries, and `set` returns the
  receiver so calls can be chained.
- `empty` and `identity` overwrite the receiver in place.
- `add` and `mul` build a new matrix. `mul` takes a matrix or a number.
- `translate`, `scale` and `rotate` left-multiply the receiver by a
  transformation matrix.
- `setOrthographic`, `setFrustum` and `setPerspective` overwrite the receiver
  with a projection matrix.
- The static `orthographic`, `frustum` and `perspective` call the matching
  instance method on a fresh 4x4 matrix. The static `identity` runs its own
  `set` loop on a fresh matrix of the given dimension.

The project has three modules:

- `Matrices` (`matrices.dfy`) is the mathematical side. A matrix value is a
  sequence of columns. The module defines the column-major layout (`Idx`) and
  the view of a flat buffer as a matrix (`Columns`), with its inverse
  `Flatten`. It also defines the constructions the class uses: zero matrix,
  identity, single-entry update `Put`, sum, scalar multiple, product, and
  matrix-times-vector `Apply`. Lemmas relate these.
- `Transforms` (`transforms.dfy`) defines the matrices that `translate`,
  `scale`, `rotate` and the three projections build. For each one it proves
  that the source's sequence of `set` calls yields it, and what it does to
  points.
- `GL` (`glmatrix.dfy`) holds the class `GLMatrix`. It has an `array<real>`
  buffer and one method per operation of the source, with the same loops and
  the same calls in the same order. Each method is proved against `Matrices`
  and `Transforms`: its `ensures` states the new contents via `Value()`, the
  buffer read as a matrix.

Errors thrown by the source become a `Result` with one `Error` constructor
per message:

| Error | Source message |
|---|---|
| `SizeMismatch` | "Different matrices size" |
| `InvalidOperandType` | "Invalid parameter type" |
| `DimensionError` | "Wrong matrix dimension" |

The right operand of `mul` is an `Operand`: `Mat`, `Scalar`, or `Other` for
any other JavaScript value.

Numbers are modelled as mathematical reals. The trigonometric and
square-root values that `rotate` and `setPerspective` compute are passed in
as parameters (see "Left out").

`mul` has a triple loop. Its model splits that loop into nested methods:

- `MulInto` holds the outer loop, over the columns of the result.
- `MulColumn` holds the middle loop, over the rows.
- `AccumulateEntry` holds the inner loop, which sums the terms of one entry.
- `AccumulateTerm` is one pass of the inner loop: a `get`, `get`, `get`,
  `set` round trip.

Together they are proved to compute `Product`.

In the same way, the long `set` chains of `rotate`, `setOrthographic` and
`setFrustum` are grouped into helper methods. Their `ensures` give the exact
nest of `Put`s. A `...BySets` lemma then shows that this nest equals the
intended matrix.

## Model

| member | source | states |
|---|---|---|
| GL.GLMatrix.constructor | glMatrix.js:10-21 | The new matrix has the given dimension, size = dimension², a fresh buffer of exactly size entries, every entry 0; its value is the zero matrix |
| GL.GLMatrix.IdentityMatrix | glMatrix.js:23-34 | The static `identity` returns a fresh matrix of the given dimension whose value is the identity matrix |
| GL.GLMatrix.Orthographic | glMatrix.js:36-44 | The static `orthographic` returns a fresh 4x4 matrix, with a fresh buffer, holding the orthographic projection of the given box |
| GL.GLMatrix.Frustum | glMatrix.js:46-54 | The static `frustum` returns a fresh 4x4 matrix, with a fresh buffer, holding the frustum projection of the given bounds |
| GL.GLMatrix.Perspective | glMatrix.js:56-64 | The static `perspective` returns a fresh 4x4 matrix, with a fresh buffer, holding the symmetric perspective projection |
| GL.GLMatrix.GetIsEntry | glMatrix.js:67-69 | `get(row, col)` is the entry at row `row` of column `col` of the matrix the buffer holds |
| GL.GLMatrix.Set | glMatrix.js:70-73 | `set` returns the receiver itself; afterwards the matrix is the old matrix with exactly the entry (row, col) replaced by the value, so every other entry is unchanged |
| GL.GLMatrix.Add | glMatrix.js:74-89 | Different sizes give the "Different matrices size" error; equal sizes give a fresh matrix of the same dimension whose every buffer cell is the sum of the operands' cells, that is the matrix sum; the operands are not modified |
| GL.GLMatrix.Mul | glMatrix.js:90-122 | A matrix operand of a different size gives the size error; one of equal size gives a fresh matrix holding the matrix product this * right; a number gives a fresh matrix with every cell multiplied by it; any other operand gives the "Invalid parameter type" error; the operands are not modified |
| GL.GLMatrix.MulInto | glMatrix.js:104-112 | The triple loop, started on a zero result, leaves the matrix product this * other in the result and writes nothing else |
| GL.GLMatrix.MulColumn | glMatrix.js:105-111 | One pass of the outer loop sets every entry of column rightCol to the dot product of the matching row of this and column of other, and leaves every other column as it was |
| GL.GLMatrix.AccumulateEntry | glMatrix.js:106-110 | The inner loop, started on a zero entry, leaves the full dot product in result(row, rightCol) and changes no other cell |
| GL.GLMatrix.AccumulateTerm | glMatrix.js:107-109 | One `result.set(row, rightCol, result.get(...) + this.get(...) * right.get(...))` adds the next term of the dot product to that one cell and changes no other cell |
| GL.GLMatrix.Empty | glMatrix.js:123-131 | Returns the receiver with every cell of its buffer set to 0, that is the zero matrix |
| GL.GLMatrix.Identity | glMatrix.js:132-142 | Returns the receiver, now holding the identity matrix, whatever it held before |
| GL.GLMatrix.Translate | glMatrix.js:143-160 | Below dimension 4 gives the dimension error and leaves the receiver alone; otherwise returns the receiver, whose matrix is now Translation(x, y, z) * old matrix, held in a fresh buffer |
| GL.GLMatrix.Scale | glMatrix.js:161-178 | Below dimension 3 gives the dimension error and leaves the receiver alone; otherwise returns the receiver, whose matrix is now Scaling(x, y, z) * old matrix, held in a fresh buffer |
| GL.GLMatrix.Rotate | glMatrix.js:179-219 | Below dimension 3 gives the dimension error and leaves the receiver alone; otherwise normalises the axis by its magnitude and returns the receiver, whose matrix is now Rotation(sine, cosine, normalised axis) * old matrix, held in a fresh buffer |
| GL.GLMatrix.AxisMatrix | glMatrix.js:202-211 | The fresh matrix built by the six `set` calls on the axis holds the skew (cross-product) matrix K of the axis |
| GL.GLMatrix.SkewSets | glMatrix.js:204-211 | The six `set` calls write -z, y, -x, z, -y, x at (0,1), (0,2), (1,2), (1,0), (2,0), (2,1), in that order, and nothing else |
| GL.GLMatrix.RotationOf | glMatrix.js:213-215 | identity.add(K.mul(sine)).add(K.mul(K).mul(1 - cosine)) is the fresh matrix I + sine K + (1 - cosine) K K |
| GL.GLMatrix.SetOrthographic | glMatrix.js:220-245 | Below dimension 4 gives the dimension error and leaves the buffer alone; otherwise returns the receiver holding the orthographic projection of the box |
| GL.GLMatrix.OrthographicSets | glMatrix.js:229-242 | The six `set` calls after `identity()` write 1/half on the diagonal and -low/half - 1 in column 3 of rows 0 to 2, and nothing else |
| GL.GLMatrix.SetFrustum | glMatrix.js:246-276 | Below dimension 4 gives the dimension error and leaves the buffer alone; otherwise returns the receiver holding the frustum projection |
| GL.GLMatrix.FrustumSets | glMatrix.js:255-273 | The eight `set` calls after `empty()` write the given entries in the given order, and nothing else |
| GL.GLMatrix.FrustumSideSets | glMatrix.js:263-267 | The first four `set` calls write zn/xHalf, zn/yHalf at (0,0), (1,1) and -xl/xHalf - 1, -yd/yHalf - 1 at (0,2), (1,2) |
| GL.GLMatrix.FrustumDepthSets | glMatrix.js:268-273 | The last four `set` calls write zn/zHalf + 1 at (2,2), -(zn zf/zHalf) at (2,3), 1 at (3,2) and 0 at (3,3) |
| GL.GLMatrix.SetPerspective | glMatrix.js:277-293 | Computes yUp = zn tan, yDown = -yUp, xLeft = yDown aspect, xRight = -xLeft and delegates to `setFrustum`: the dimension error below 4, otherwise the receiver holds Perspective(tan, aspect, zn, zf) |
| Matrices.Idx | glMatrix.js:68 | The flat index of an in-range (row, col) lies inside the buffer of dimension² cells |
| Matrices.IdxIsColumnMajor | glMatrix.js:68 | The flat index of (row, col) is col * dimension + row |
| Matrices.IdxInjective | glMatrix.js:68 | Distinct cells have distinct flat indices, so a `set` never disturbs another cell |
| Matrices.RowColOf | glMatrix.js:84-85 | Every index of the buffer is the flat index of exactly the cell (k mod n, k div n), so the flat loops of `add`, `mul` by a number and `empty` visit every entry |
| Matrices.CellsIsSquare | glMatrix.js:16 | The buffer size is dimension * dimension |
| Matrices.SameSizeSameDimension | glMatrix.js:78 | Equal sizes mean equal dimensions, so the `size` check of `add` and `mul` is a dimension check |
| Matrices.ColumnsOfFlatten | glMatrix.js:68 | Reading a flattened matrix back as columns gives the matrix |
| Matrices.FlattenOfColumns | glMatrix.js:68 | Flattening the column view of a buffer gives the buffer back |
| Matrices.FlattenAt | glMatrix.js:68 | Flatten puts entry (row, col) at the flat index Idx(row, col) |
| Matrices.ColumnsInjective | glMatrix.js:68 | Two buffers holding the same matrix are the same buffer |
| Matrices.ColumnsOfUpdate | glMatrix.js:71 | Writing the buffer cell at Idx(row, col) replaces exactly the entry (row, col) of the matrix |
| Matrices.PutIsUpdate | glMatrix.js:71 | A buffer holding the matrix with one entry replaced is the old buffer with that one cell replaced |
| Matrices.Put | glMatrix.js:70-73 | The updated matrix has the new value at (row, col) and the old value everywhere else |
| Matrices.PutTwice | glMatrix.js:70-73 | Setting the same entry twice leaves the second value |
| Matrices.PutSame | glMatrix.js:70-73 | Setting an entry to the value it holds changes nothing |
| Matrices.BufferDotStep | glMatrix.js:107-109 | Adding this(row, col) * right(col, rightCol) to the partial dot product gives the partial dot product with one more term |
| Matrices.BufferDotIsDot | glMatrix.js:104-112 | The dot product read off the two flat buffers with `get` is the dot product of the matrices they hold |
| Matrices.FillColumnAt | glMatrix.js:105-111 | After the first rows passes of the middle loop, column c holds the dot products in rows below rows; every other cell is as before |
| Matrices.ApplySum | glMatrix.js:213-215 | Applying a sum of matrices to a vector adds the images |
| Matrices.ApplyScaled | glMatrix.js:213-215 | Applying a scaled matrix to a vector scales the image |
| Matrices.ApplyIdentity | glMatrix.js:132-142 | The identity matrix fixes every vector |
| Matrices.IdentityLeftNeutral | glMatrix.js:150-157 | I * A == A: left-multiplying by an untouched identity leaves a matrix unchanged |
| Matrices.IdentityRightNeutral | glMatrix.js:104-112 | A * I == A |
| Matrices.SumSelfIsDouble | glMatrix.js:74-122 | A.add(A) holds the same matrix as A.mul(2) |
| Matrices.ProductAssociative | glMatrix.js:104-112 | (A * B) * D == A * (B * D), so a chain of `translate`, `scale` and `rotate` calls is one left-multiplication by the product of their transforms |
| Transforms.TranslationBySets | glMatrix.js:150-155 | The identity with x, y, z set at (0,3), (1,3), (2,3) is the translation matrix |
| Transforms.TranslateRows | glMatrix.js:157 | Translation * A adds x, y, z times row 3 of A to rows 0, 1, 2 of A and keeps every other row |
| Transforms.TranslationMovesPoints | glMatrix.js:150-157 | The translation sends the point (px, py, pz, 1) to (px + x, py + y, pz + z, 1) |
| Transforms.TranslatedIdentity | glMatrix.js:143-160 | Translating the identity gives column 3 = (x, y, z, 1) and keeps columns 0 to 2 |
| Transforms.ScalingBySets | glMatrix.js:168-173 | The identity with x, y, z set at (0,0), (1,1), (2,2) is the scaling matrix |
| Transforms.ScaleRows | glMatrix.js:175 | Scaling * A multiplies rows 0, 1, 2 of A by x, y, z and keeps every other row |
| Transforms.ScalingStretchesPoints | glMatrix.js:168-175 | The scaling sends (px, py, pz, pw) to (x px, y py, z pz, pw) |
| Transforms.ScaledIdentity | glMatrix.js:161-178 | Scaling the identity gives diag(x, y, z, 1) |
| Transforms.SkewBySets | glMatrix.js:202-211 | The six `set` calls on a zero matrix give the skew matrix K of the axis |
| Transforms.SkewIsCrossProduct | glMatrix.js:204-211 | K applied to (a, b, c, w) is the cross product axis x (a, b, c), with 0 in the last place |
| Transforms.SkewSquared | glMatrix.js:215 | K K is the matrix u uᵀ - \|u\|² I on the 3x3 block and 0 elsewhere |
| Transforms.SkewSquaredKillsAxis | glMatrix.js:215 | K K sends the axis (x, y, z, w) to 0 |
| Transforms.RotationByZero | glMatrix.js:213-216 | With sine 0 and cosine 1 the rotation matrix is the identity |
| Transforms.FixedByRotationParts | glMatrix.js:213-215 | A vector that K and K K both send to 0 is fixed by I + sine K + (1 - cosine) K K |
| Transforms.RotationFixesAxis | glMatrix.js:179-219 | The rotation fixes every point on its axis, for every sine and cosine |
| Transforms.Half | glMatrix.js:229-231 | The half extent h of [lo, hi] satisfies lo + 2h == hi |
| Transforms.OrthographicBySets | glMatrix.js:233-242 | `identity()` followed by the six `set` calls gives the orthographic matrix |
| Transforms.OrthographicUnitCube | glMatrix.js:220-245 | The orthographic projection of the box [-1, 1]³ is the identity |
| Transforms.OrthographicMapsPoints | glMatrix.js:220-245 | The orthographic matrix sends (px, py, pz, 1) to ((px - xl)/xHalf - 1, (py - yd)/yHalf - 1, (pz - zn)/zHalf - 1, 1) |
| Transforms.OrthographicMapsBox | glMatrix.js:220-245 | The corner (xl, yd, zn) goes to (-1, -1, -1) and the corner (xr, yu, zf) to (1, 1, 1) |
| Transforms.FrustumBySets | glMatrix.js:260-273 | `empty()` followed by the eight `set` calls gives the frustum matrix, with every other entry 0 |
| Transforms.FrustumMapsPoints | glMatrix.js:246-276 | The clip coordinates of (px, py, pz, 1) under the frustum matrix, written out |
| Transforms.FrustumMapsNearCorner | glMatrix.js:246-276 | The near corner (xl, yd, zn, 1) goes to (-zn, -zn, -zn, zn), so to (-1, -1, -1) after the divide by w |
| Transforms.FrustumMapsFarCorner | glMatrix.js:246-276 | The far corner (xr zf/zn, yu zf/zn, zf, 1) goes to (zf, zf, zf, zf), so to (1, 1, 1) after the divide by w |
| Transforms.PerspectiveIsFrustum | glMatrix.js:283-290 | The perspective matrix is the frustum matrix of the bounds (-yu aspect, yu aspect, -yu, yu) with yu = zNear tan, and those bounds are distinct |
| Transforms.PerspectiveIsCentered | glMatrix.js:277-293 | The symmetric frustum has no depth shift in x or y, and scales x by 1/(tan aspect) and y by 1/tan |

## Left out

- Numbers are reals, not IEEE doubles. There is no rounding, infinity or
  NaN. Where the source would divide by zero and produce an infinity or NaN,
  the model requires the divisor to be nonzero instead:
  `setOrthographic`, `setFrustum` and the static projections need distinct
  bounds, and `setPerspective` needs a nonzero `zNear * tan`, a nonzero aspect ratio
  and `zNear != zFar`.
  These requirements apply only from dimension 4 up, so the dimension error
  is still reachable.
- GL.GLMatrix.Rotate is weaker than the source in three ways.
  - It takes `sine`, `cosine` and the axis `magnitude` as parameters. They
    stand for the JavaScript `Math.sin`, `Math.cos` and `Math.sqrt` of the
    source at lines 190 and 197-200.
  - It requires a positive magnitude whose square is x² + y² + z², from
    dimension 3 up.
  - The conversion of the angle from degrees (`degreeToRadian`, lines
    296-298) is not modelled.
- GL.GLMatrix.SetPerspective takes the tangent of half the field of view as
  a parameter, standing for `Math.tan(degreeToRadian(angle) / 2.0)` (lines
  283-285). It does not see the angle itself.
- GL.GLMatrix.Perspective takes the same tangent parameter.
- GL.GLMatrix.constructor requires a positive dimension. Three behaviours of
  the source are left out:
  - calling `GLMatrix` without `new` (lines 11-13), which re-enters with the
    `arguments` object as the dimension;
  - the `dimension || 4` default (line 15), under which a missing dimension
    gives dimension 4 but size NaN and an empty buffer;
  - non-integer dimensions.
- GL.GLMatrix.Set and GL.GLMatrix.Get require an in-range row and column.
  The source does not check the indices. It only computes the flat index
  `col * dimension + row`, so an out-of-range row or column can still land
  inside the buffer (for example `get(dimension, 0)` reads entry (0, 1)).
  Only a flat index outside the buffer reads `undefined` or, for `set`,
  grows the JavaScript array.
- GL.GLMatrix.Get has no `ensures` of its own. What it reads is stated by
  `GetIsEntry`.
- GL.GLMatrix.Translate, GL.GLMatrix.Scale and GL.GLMatrix.Rotate adopt the
  fresh buffer of the product, as the source does at lines 157, 175 and 216.
  The product object left behind shares that buffer. The model does not
  track that object, because no caller can reach it.
- The source's `mul` allocates its result before it checks the operand
  (line 97). `Mul` does the same, but its contract does not mention the
  discarded matrix on the error paths.
- The `(function () { ... }())` module wrapper, the `/*export GLMatrix*/`
  hint and the global `GLMatrix` variable are not modelled.
- JavaScript dynamic typing is left out. Operands of `add` are assumed to be
  matrices; `mul` covers matrix, number and anything else through `Operand`.
