# rust-3dgraphics, modelled in Dafny

This project models the software renderer of rust-3dgraphics: the pipeline that
takes a mesh of triangles from model space to the screen, and the rasterisers
that turn each triangle into pixels and depth values.

## What the model covers

- **Geometry.** The generic algebra of `src/geometry`: R×C matrices with
  elementwise, scalar and matrix products; points and vectors as single-row
  matrices; orientations; and inclusive axis-aligned bounding boxes.
- **Transforms.** The affine and projection matrix builder of `src/mesh/transform.rs`.
- **Meshes.**
  - The face-vertex mesh with its OBJ line loader, its pipeline (transform,
    normals, visibility tags) and its positional triangle iterator.
  - The index-polygon meshes of `src/mesh/mesh.rs`, `static_mesh.rs` and
    `dynamic_mesh.rs`, plus the earlier mesh of `mesh_transform.rs`,
    `mesh_translate.rs` and `mesh_iterate.rs`.
  - The physical state with its clamp and wrap rules for angles.
- **Rasterisation.**
  - The three-axis DDA edge table of `src/rasterizer.rs`.
  - The depth-tested scanline fill of `src/mesh/polygonal.rs` over the pixel
    and depth buffers of `src/buffer.rs`.
  - The older pipeline of `src/pipeline.rs` with its two-axis line walk.
  - The alpha-as-depth drawing of `src/window.rs`.
  - The wireframe `Frame` of `src/frame.rs`.
  - The integer shapes of `src/shapes`.

## How the model is built

- Floats are `real`, and so are the elements of the generic point, vector and matrix
  algebra (its integer instances are listed under "## Left out").
- Integer casts are written out explicitly in `numeric.dfy`: truncation toward
  zero, saturation, rounding half away from zero, and `u32`/`usize`/`u8` ranges.
- A panic is an error result: an `ok` flag or `None`.
- Code that changes state in place keeps that form:
  - classes with `modifies` clauses;
  - `array`/`array2` buffers;
  - `while` loops with invariants.
- Each such method is proved against a specification function. The properties
  the source promises are then proved about those functions as lemmas.
- Pure code is datatypes, functions and lemmas.

Where the program's prose description and its code differ, the model follows the code.

- **`draw_line_2d` in `src/frame.rs`** only shadows the endpoints when it swaps
  them. A line whose driving coordinate runs backwards is therefore drawn as
  nothing.
- **`draw_pixel` in `src/window.rs` and `src/frame.rs`** counts rows from
  `height`, not from `height − 1`. Row 0 therefore addresses past the end of the
  buffer and panics.

## Model

| member | source | states |
|---|---|---|
| Numeric.Clamp | src/mesh/polygonal.rs:59-60 | `Ord::clamp` gives a value inside [lo, hi] that is x itself whenever x is already inside; lo ≤ hi is demanded because clamp panics otherwise |
| Numeric.CastI32 | src/rasterizer.rs:98-99 | a float cast `as i32` always lands in the i32 range (truncation toward zero, saturating) |
| Numeric.CastU8 | src/window.rs:114 | a float cast `as u8` always lands in 0..=255 |
| Numeric.WrapI32 | src/mesh/polygonal.rs:32-33 | an integer cast `as i32` lands in the i32 range and differs from the value by a multiple of 2^32 |
| Numeric.WrapI32InRange | src/pipeline.rs:74-75 | a value already inside the i32 range is unchanged by the cast |
| Numeric.WrapU32 | src/frame.rs:67-68 | an integer cast `as u32` lands in 0..=u32::MAX and keeps any value already inside it |
| Numeric.RoundUsize | src/mesh/polygonal.rs:124 | `z.round() as usize` is at most usize::MAX and, away from saturation, within one half of z |
| Numeric.CastI32Monotone | src/rasterizer.rs:98-99 | the `as i32` cast preserves order |
| Matrix.Elements | src/geometry/matrix/mat.rs:10 | the rows read from a matrix place have its shape and hold each of its elements at the same position |
| Matrix.Default | src/geometry/matrix/mat.rs:16-25 | the default R×C matrix has every element equal to zero |
| Matrix.Map | src/geometry/matrix/mat.rs:77-82 | `map` keeps the number of rows and the length of each row |
| Matrix.MapAt | src/geometry/matrix/mat.rs:77-82 | `map` puts f of element (i, j) at (i, j) and keeps the shape |
| Matrix.ForEach | src/geometry/matrix/mat.rs:89-94 | `for_each` leaves the place equal to `map` of its old contents |
| Matrix.FlattenLength | src/geometry/matrix/mat.rs:96-120 | `iter`/`into_iter` yield R·C elements |
| Matrix.FlattenAt | src/geometry/matrix/mat.rs:96-120 | the (i·C + j)-th element yielded is m[i][j], so the order is row-major |
| Matrix.Row | src/geometry/matrix/mat.rs:143-155 | `m[r]` yields row r exactly when r is below the row count and panics otherwise |
| Matrix.SetAt | src/geometry/matrix/mat.rs:151-155 | a write through `m[r][c]` succeeds exactly when both indices are in range, sets that element and leaves every other element alone |
| Matrix.ZipWith | src/geometry/matrix/addition.rs:19-21 | combining two equally shaped matrices keeps the shape and puts f(a[i][j], b[i][j]) at (i, j) |
| Matrix.Place | src/geometry/matrix/addition.rs:32 | the copy `let mut mat = *self` is a fresh place of the same shape holding the same elements |
| Matrix.ZipAssign | src/geometry/matrix/addition.rs:48-50 | the `iter_mut().zip(..).for_each(..)` walk leaves the place equal to the elementwise combination of its old contents with rhs |
| Matrix.AddAssign | src/geometry/matrix/addition.rs:43-62 | `a += b` leaves a equal to the old a plus b |
| Matrix.SubAssign | src/geometry/matrix/subtraction.rs:45-66 | `a -= b` leaves a equal to the old a minus b |
| Matrix.Add | src/geometry/matrix/addition.rs:11-38 | `a + b` and `&a + b` give the elementwise sum and change neither operand |
| Matrix.Subtract | src/geometry/matrix/subtraction.rs:11-40 | `a - b` and `&a - b` give the elementwise difference and change neither operand |
| Matrix.SumDifferenceInverse | src/geometry/matrix/subtraction.rs:11-40 | subtracting b undoes adding b, and adding b undoes subtracting it |
| Matrix.SumCommutes | src/geometry/matrix/addition.rs:11-38 | matrix addition is commutative |
| Matrix.Scaled | src/geometry/matrix/multiplication.rs:11-30 | scalar `*` keeps the shape and multiplies every element by s |
| Matrix.Divided | src/geometry/matrix/divisision.rs:10-29 | scalar `/` keeps the shape and divides every element by s |
| Matrix.ScaleAssign | src/geometry/matrix/multiplication.rs:35-50 | `*= Scalar(s)` in place leaves the same matrix as scalar `*` |
| Matrix.DivAssign | src/geometry/matrix/divisision.rs:30-37 | `/= Scalar(s)` in place leaves the same matrix as scalar `/` |
| Matrix.DividedUndoesScaled | src/geometry/matrix/divisision.rs:10-19 | dividing by a non-zero scalar undoes multiplying by it |
| Matrix.DotFour | src/geometry/matrix/multiplication.rs:69 | the fold over four terms is the written-out four-term dot product |
| Matrix.Col | src/geometry/matrix/multiplication.rs:69 | column j, as the fold reads `rhs[n][p]`, has one entry per row holding that row's element j |
| Matrix.RowTimes | src/geometry/point/arith.rs:165-200 | a row vector times an n×p matrix has p entries |
| Matrix.Product | src/geometry/matrix/multiplication.rs:55-76 | an (m×n)·(n×p) product has shape m×p |
| Matrix.Multiply | src/geometry/matrix/multiplication.rs:55-82 | the nested loops over a default matrix leave entry (i, j) = Σ_k a[i][k]·b[k][j], for all four operand variants |
| Matrix.MulAssign | src/geometry/matrix/multiplication.rs:87-118 | `*=` with a square rhs leaves the product of the old matrix and rhs, computed entirely from the old matrix |
| Matrix.Identity | src/mesh/transform.rs:30-41 | the identity matrix is n×n |
| Matrix.DotScaleAdd | src/geometry/matrix/multiplication.rs:69 | the fold is linear: a row that is x + s·y folds to the fold of x plus s times the fold of y |
| Matrix.DotExchange | src/geometry/matrix/multiplication.rs:69 | the double fold can be summed in either order |
| Matrix.DotOfZeros | src/geometry/matrix/multiplication.rs:69 | folding a zero row from `T::default()` gives zero |
| Matrix.RowTimesProduct | src/geometry/point/arith.rs:165-224 | multiplying a row vector by a and then by b is multiplying it by a·b |
| Matrix.ProductAssociative | src/geometry/matrix/multiplication.rs:55-76 | the matrix product is associative, so chained products compose in call order |
| Matrix.DotUnit | src/geometry/matrix/multiplication.rs:69 | folding a row of the identity against v picks out v[i] |
| Matrix.DotAgainstUnit | src/geometry/matrix/multiplication.rs:69 | folding u against a column of the identity picks out u[j] |
| Matrix.RowTimesIdentity | src/geometry/point/arith.rs:165-200 | a row vector times the identity is itself |
| Matrix.ProductIdentity | src/geometry/matrix/multiplication.rs:55-76 | the identity is neutral on both sides of the product |
| Matrix.SampleIndexing | src/geometry/matrix/mat.rs:166-180 | for the test matrix m[0][1] = 1 and m[1][3] = 7, and row 2 panics |
| Matrix.SampleScalar | src/geometry/matrix/mat.rs:182-195 | the scalar tests: ×4 gives 20 at [1][1], a further ×2 gives 40, and /4 gives 5/4 |
| Matrix.SampleSumDifference | src/geometry/matrix/mat.rs:197-216 | the sum's [1][1] is 10 and the difference's [1][1] is 2 |
| Matrix.SampleProducts | src/geometry/matrix/mat.rs:218-227 | [[0,1,2],[3,4,5]]·[[6,7],[8,9],[10,11]] = [[28,31],[100,112]], and [[2,3],[5,4]] *= itself gives [[19,18],[30,31]] |
| Vector.Add | src/geometry/vector/arith.rs:10-80 | `u + v` (all four operand forms) and `u += v` give the componentwise sum, of the same dimension |
| Vector.Scale | src/geometry/vector/arith.rs:86-122 | `v * Scalar(s)` and `v *= Scalar(s)` multiply every component by s |
| Vector.DivScalar | src/geometry/vector/arith.rs:126-162 | `v / Scalar(s)` and `v /= Scalar(s)` divide every component by s |
| Vector.Neg | src/geometry/vector/arith.rs:166-183 | `-v` negates every component |
| Vector.NegInvolutive | src/geometry/vector/arith.rs:166-183 | negating twice gives the vector back |
| Vector.Times | src/geometry/vector/arith.rs:188-247 | `v * m` (and `v *= m` for a square m) is the 1×R by R×C row-vector product |
| Vector.TimesComposes | src/geometry/vector/arith.rs:188-247 | multiplying by a and then by b is multiplying by a·b |
| Vector.ScaleExamples | src/geometry/vector.rs:27-53 | the tests: (0.43, 56.28, −87.52, −0.23) times and divided by 4.87 is each component times and divided by 4.87 (in exact arithmetic), and dividing undoes multiplying |
| Vector.Promote | src/geometry/vector/convert.rs:24-29 | `promote` succeeds exactly when ND ≥ D, copies the D components to the front and fills the rest with zero; ND < D panics on the slice bounds |
| Vector.Demote | src/geometry/vector/convert.rs:33-38 | `demote` succeeds exactly when ND ≤ D and keeps the first ND components; ND > D panics |
| Vector.DemotePromote | src/geometry/vector/convert.rs:24-38 | demoting a promoted vector gives the original back |
| Vector.Slot | src/geometry/vector/index.rs:15-21 | the slot a guard arm selects is never beyond the dimension |
| Vector.Get | src/geometry/vector/index.rs:8-23 | `v[d]` succeeds exactly when a guard passes and the selected slot is in range, and yields that component |
| Vector.Set | src/geometry/vector/index.rs:25-39 | a write through `IndexMut<Dim>` succeeds exactly when the read does, stores x in that component and changes no other |
| Vector.NamedAxes | src/geometry/vector/index.rs:15-19 | X, Y, Z, W read components 0, 1, 2, 3 and need a dimension of at least 1, 2, 3, 4 |
| Vector.NumberedAxisGuard | src/geometry/vector/index.rs:20-21 | the N(n) guard is D ≥ n, so N(D) passes it and then indexes out of range: only n < D succeeds |
| Point.Translate | src/geometry/point/arith.rs:11-52 | `p + v` and `p += v` give the componentwise sum as a point |
| Point.Diff | src/geometry/point/arith.rs:57-76 | `p - q` is the vector of componentwise differences |
| Point.Scale | src/geometry/point/arith.rs:81-118 | `p * Scalar(s)` and `p *= Scalar(s)` multiply every coordinate by s |
| Point.DivScalar | src/geometry/point/arith.rs:123-160 | `p / Scalar(s)` and `p /= Scalar(s)` divide every coordinate by s |
| Point.Times | src/geometry/point/arith.rs:165-224 | `p * m` for an R×C matrix is the row-vector product, a C-dimensional point; `p *= m` for a square m stores the same product |
| Point.TranslateByDiff | src/geometry/point/arith.rs:11-76 | moving p by q − p reaches q, and the difference back is that vector again |
| Point.TimesComposes | src/geometry/point/arith.rs:165-224 | transforming by a and then b is transforming by a·b |
| Point.ArithExamples | src/geometry/point.rs:30-87 | the tests, in exact arithmetic: (0.22, 25.14, −44.31, −0.12) doubled, or translated by itself, is (0.44, 50.28, −88.62, −0.24) and halving that gives it back; a diag(2) matrix doubles (1, 2, 3, −4); `vector_to` gives the vector and `vector_from` its negation |
| Point.VectorFrom | src/geometry/point/method.rs:14-19 | `p.vector_from(q)` is p − q |
| Point.VectorTo | src/geometry/point/method.rs:23-28 | `p.vector_to(q)` is q − p |
| Point.VectorFromIsNegatedVectorTo | src/geometry/point.rs:79-87 | `vector_from` is the negation of `vector_to`, and moving q by p's `vector_from(q)` reaches p |
| Point.ToHomogenous | src/geometry/point/convert.rs:31-35 | (x, y, z) becomes (x, y, z, 1) |
| Point.FromHomogenous | src/geometry/point/convert.rs:37-44 | over real elements there is a result exactly when w ≠ 0, and each of its three coordinates times w is the original one; for w = 0 there is no result |
| Point.HomogenousRoundTrip | src/geometry/point/convert.rs:31-44 | converting to homogeneous form and back gives the point back |
| Point.Widen | src/geometry/point/convert.rs:68-80 | widening `From` converts every coordinate independently and keeps its value |
| Point.TryNarrow | src/geometry/point/convert.rs:97-117 | `TryFrom` is `Ok` exactly when every coordinate fits the target range, and then every coordinate is kept |
| BoundingBox.Default | src/geometry/bounding_box.rs:21-28 | the default box has D axes, each the range (0, 0) |
| BoundingBox.New | src/geometry/bounding_box.rs:36-53 | `new` yields one range per axis holding (min(c1, c2), max(c1, c2)) of the corners' coordinates |
| BoundingBox.CornersSymmetric | src/geometry/bounding_box.rs:46-50 | `new(p1, p2)` and `new(p2, p1)` give the same box |
| BoundingBox.CornersBounded | src/geometry/bounding_box.rs:36-79 | every range is ordered, and both corners passed to `new` are bounded by the box |
| BoundingBox.BoundsCornersIff | src/geometry/bounding_box.rs:71-79 | `bounds` holds exactly when each coordinate lies, inclusively, between the two corners' coordinates on that axis |
| BoundingBox.DefaultBoundsOnlyOrigin | src/geometry/bounding_box.rs:21-28 | the default box bounds the origin and nothing else |
| BoundingBox.Example | src/geometry/bounding_box.rs:90-102 | the test: the inside point is bounded and the point outside on Y alone is not |
| Orientation.New | src/geometry/orientation.rs:34-36 | `new` stores the angles exactly as given |
| Orientation.Default | src/geometry/orientation.rs:69-76 | the default orientation has D angles, all zero |
| Orientation.Get | src/geometry/orientation.rs:39-53 | `o[axis]` succeeds exactly when the axis's slot is below D and yields that angle |
| Orientation.Set | src/geometry/orientation.rs:55-67 | a write through `IndexMut` uses the same mapping, stores x there and leaves the other angles alone |
| Orientation.AxisMapping | src/geometry/orientation.rs:45-52 | Roll, Pitch and Yaw address angles 0, 1 and 2, and N(i) addresses angle i |
| Orientation.SetThenGet | src/geometry/orientation.rs:45-66 | reading back a written axis gives the written angle; reading another axis is unaffected |
| Transform.IdentityRowsIsIdentity | src/mesh/transform.rs:56-63 | the literal matrix written in `new` and both `default`s is the 4×4 identity |
| Transform.NewBuilder | src/mesh/transform.rs:47-63 | `TransformBuilder::new` and `Transform::builder` start at the identity |
| Transform.DefaultBuilder | src/mesh/transform.rs:30-41 | `TransformBuilder::default` is the same builder as `new` |
| Transform.DefaultTransform | src/mesh/transform.rs:17-28 | `Transform::default` is the identity |
| Transform.FromArray | src/mesh/transform.rs:83-87 | `From<[[f64; 4]; 4]>` keeps the given entries |
| Transform.BuildAffine | src/mesh/transform.rs:66-68 | `build_affine` returns the accumulated matrix unchanged |
| Transform.BuildProjection | src/mesh/transform.rs:71-76 | `build_projection` sets [2][3] = 1 and [3][3] = 0 and keeps the other fourteen entries |
| Transform.Then | src/mesh/transform.rs:174-291 | each builder operation right-multiplies the accumulated 4×4 matrix and gives a 4×4 matrix |
| Transform.AxisOperations | src/mesh/transform.rs:190-291 | `translate_x/y/z(t)` are `translate` with t in only that axis, and `scale_x/y/z(s)` put s on only their own diagonal entry |
| Transform.FromIdentity | src/mesh/transform.rs:174-185 | from the identity, `translate(v)` gives the identity with bottom row (tx, ty, tz, 1) and `scale(s)` gives diag(s, s, s, 1) |
| Transform.ThenAppliesLast | src/mesh/transform.rs:117-291 | operations compose in call order: the built matrix applies the earlier transformation first and the new operation last |
| Transform.ThenThen | src/mesh/transform.rs:117-291 | two chained operations equal one operation by the product of their matrices |
| Transform.TranslationMoves | src/mesh/transform.rs:174-185 | a homogeneous point with w = 1 moved by the translation matrix becomes (x+tx, y+ty, z+tz, 1) |
| Transform.ScalingScales | src/mesh/transform.rs:235-246 | the scaling matrix multiplies x, y and z by s and keeps w |
| Transform.Translate | src/mesh/transform.rs:174-188 | `translate(v)` keeps the w column and adds the w column times tx, ty and tz to the x, y and z columns |
| Transform.TranslateX | src/mesh/transform.rs:190-203 | `translate_x(t)` adds the w column times t to the x column and keeps the other three |
| Transform.TranslateY | src/mesh/transform.rs:205-218 | `translate_y(t)` adds the w column times t to the y column and keeps the other three |
| Transform.TranslateZ | src/mesh/transform.rs:220-233 | `translate_z(t)` adds the w column times t to the z column and keeps the other three |
| Transform.Scale | src/mesh/transform.rs:235-248 | `scale(s)` multiplies the x, y and z columns by s and keeps the w column |
| Transform.ScaleX | src/mesh/transform.rs:250-263 | `scale_x(s)` multiplies the x column by s and keeps the other three |
| Transform.ScaleY | src/mesh/transform.rs:265-278 | `scale_y(s)` multiplies the y column by s and keeps the other three |
| Transform.ScaleZ | src/mesh/transform.rs:280-291 | `scale_z(s)` multiplies the z column by s and keeps the other three |
| FaceVertex.StartPipeline | src/mesh/face_vertex.rs:48-60 | `start_pipeline` gives one homogeneous vertex per mesh vertex, its coordinates followed by w = 1, keeps the triangles, and has neither normals nor tags |
| FaceVertex.StartPipelineRoundTrip | src/mesh/face_vertex.rs:48-60 | each promoted vertex converts back, through `from_homogenous`, to the mesh vertex it came from |
| FaceVertex.VisibilityOrder | src/mesh/face_vertex/polygon.rs:4-9 | the derived order is None < Partial < Full, and it is strict and total |
| FaceVertex.Verticies | src/mesh/face_vertex/polygon.rs:22-24 | `verticies` gives the polygon's three vertices in stored order |
| FaceVertex.VertexCount | src/mesh/face_vertex/polygon.rs:18-20 | `vertex_count` is the length of `verticies` |
| FaceVertex.TransformedVertex | src/mesh/face_vertex/pipeline.rs:13-16 | the transformed vertex has w = 1, and scaling it by the pre-division w gives back the row-vector product with the matrix |
| FaceVertex.TransformMesh | src/mesh/face_vertex/pipeline.rs:12-18 | `transform` maps every vertex in place through that step and keeps the triangles, normals and tags; every w is 1 afterwards |
| FaceVertex.UpdateNormals | src/mesh/face_vertex/pipeline.rs:20-33 | `update_normals` succeeds exactly when every index is in range; it then gives one normal per triangle, in order, built from v1 − v0 and v2 − v0, and changes no other field |
| FaceVertex.Classify | src/mesh/face_vertex/pipeline.rs:43-55 | a triangle is Full iff all three vertices are bounded, Partial iff some but not all are, and None iff none is |
| FaceVertex.UpdateVisibility | src/mesh/face_vertex/pipeline.rs:35-61 | `update_visibility` succeeds exactly when every triangle's looked-up vertices are in range (the third is not looked up when the first two disagree under the bounds); every triangle whose indices are all in range is tagged `Classify` of its three vertices; one tag per triangle, in order, and no other field changes |
| FaceVertex.Tag | src/mesh/face_vertex/pipeline.rs:43-55 | one triangle's tag is defined exactly when its first two vertices are in range and, if they agree under the bounds, the third is too; when the first two disagree the tag is `Partial`; with all three in range it is `Classify` of the three |
| FaceVertex.ThirdIndexSkipped | src/mesh/face_vertex/pipeline.rs:43-55 | a triangle whose third index is out of range still gets `Partial` when its first vertex is outside the bounds and its second inside, because `\|\|` never looks up the third |
| FaceVertex.VisibilityMonotone | src/mesh/face_vertex/pipeline.rs:35-61 | a bounder that accepts at least as many points never lowers a triangle's tag |
| FaceVertex.EnclosingBoxTagsFull | src/mesh/face_vertex/pipeline.rs:43-47 | with a `BBox` that bounds every vertex, every triangle is tagged Full |
| FaceVertex.StagesCommute | src/mesh/face_vertex/pipeline.rs:20-61 | the normal and visibility stages touch separate fields, so either order gives the same mesh |
| FaceVertex.Start | src/mesh/face_vertex/iter.rs:14-21 | `Iter::new` views the mesh's vertex and index slices, and its normal and tag lists if present |
| FaceVertex.Step | src/mesh/face_vertex/iter.rs:27-60 | `next` yields exactly when a triangle is left, the present optional lists are not exhausted and the triangle's indices are in range; the polygon holds the indexed vertices and the heads of the present lists, and every present list advances by one |
| FaceVertex.ItemsAll | src/mesh/face_vertex/iter.rs:27-60 | with valid indices and lists at least as long as the triangle list, the iterator yields every triangle once, in order, with the normal and tag at its own position |
| FaceVertex.ItemsStopAtNormals | src/mesh/face_vertex/iter.rs:31-33 | a normal list shorter than the triangle list ends the iteration after as many polygons as there are normals |
| FaceVertex.Iter.constructor | src/mesh/face_vertex/iter.rs:14-21 | the new iterator's state is `Start` of the mesh |
| FaceVertex.Iter.Next | src/mesh/face_vertex/iter.rs:27-60 | the method returns what `Step` gives for the old state and moves to `Step`'s new state |
| FaceVertexConstruct.DefaultMesh | src/mesh/face_vertex/construct.rs:9-46 | `Mesh::default` has 8 three-dimensional corners with every coordinate ±50 (edge 100 about the origin) and 12 triangles whose indices all name corners |
| FaceVertexConstruct.CubeCornersDistinct | src/mesh/face_vertex/construct.rs:19-26 | the 8 corners pushed are pairwise distinct |
| FaceVertexConstruct.CubeTrianglesOnFaces | src/mesh/face_vertex/construct.rs:28-39 | every triangle names three distinct corners lying on one face of the cube |
| FaceVertexConstruct.CubeIteratesAll | src/mesh/face_vertex/construct.rs:9-46 | the default cube promoted to a pipeline mesh iterates to all 12 triangles |
| FaceVertexConstruct.SplitWhitespace | src/mesh/face_vertex/construct.rs:60-61 | `trim().split_whitespace()` gives non-empty tokens free of white space (the Unicode White_Space characters), in order |
| FaceVertexConstruct.SplitKeepsText | src/mesh/face_vertex/construct.rs:60-61 | the tokens put back together are the line with its white space removed, so splitting loses nothing else |
| FaceVertexConstruct.SplitJoin | src/mesh/face_vertex/construct.rs:60-61 | splitting words joined by single spaces gives the words back |
| FaceVertexConstruct.ParseUsize | src/mesh/face_vertex/construct.rs:71 | `str::parse::<usize>` succeeds only on an optional `+` followed by decimal digits, and only with a value at most `usize::MAX` |
| FaceVertexConstruct.ParseShow | src/mesh/face_vertex/construct.rs:71 | parsing the decimal text of any index up to `usize::MAX` gives the index back |
| FaceVertexConstruct.ParseAll | src/mesh/face_vertex/construct.rs:63-64 | `flat_map(str::parse)` keeps at most as many values as there are tokens |
| FaceVertexConstruct.ClassifyLine | src/mesh/face_vertex/construct.rs:57-74 | a line starting with 'v' adds a vertex from the first three numbers that parse, one starting with 'f' adds a triangle from the first three indices minus 1, and anything else is skipped; fewer than three values, or an index 0, is a panic |
| FaceVertexConstruct.PanicIsFinal | src/mesh/face_vertex/construct.rs:56-76 | once a line panics, loading the whole file panics |
| FaceVertexConstruct.LoadedSomeIff | src/mesh/face_vertex/construct.rs:56-76 | the load succeeds exactly when no line panics |
| FaceVertexConstruct.LoadedCounts | src/mesh/face_vertex/construct.rs:52-84 | a successful load has one three-dimensional vertex per vertex line and one triangle per face line |
| FaceVertexConstruct.Load | src/mesh/face_vertex/construct.rs:51-85 | `Mesh::new`'s line loop pushes vertices and triangles line by line and gives exactly the specification `Loaded` of the lines |
| FaceVertexConstruct.LoadedOneFace | src/mesh/face_vertex/construct.rs:66-74 | a file of one face line loads as a mesh with no vertices and that one triangle |
| FaceVertexConstruct.FaceIndicesUnchecked | src/mesh/face_vertex/construct.rs:66-74 | the file "f 1 2 3" loads as triangle (0, 1, 2) over no vertices: indices are never checked against the vertex count |
| FaceVertexConstruct.FaceLine | src/mesh/face_vertex/construct.rs:66-73 | the line "f 1 2 3" adds triangle (0, 1, 2) |
| FaceVertexConstruct.ZeroIndexPanics | src/mesh/face_vertex/construct.rs:73 | the line "f 0 1 2" panics, since 0 − 1 underflows usize |
| Buffer.AsSlice | src/buffer.rs:28-32 | `as_slice` gives the colour's four bytes in order |
| Buffer.PixelOffset | src/buffer.rs:40-47 | the pixel index is defined exactly when y < height, since `height - 1 - y` underflows otherwise |
| Buffer.PixelOffsetInBounds | src/buffer.rs:40-47 | inside the screen the four bytes fit in the width·height·4 buffer, start on a multiple of 4, and decode to stored row height − 1 − y and column x: the origin is the bottom-left |
| Buffer.DepthOffsetInBounds | src/buffer.rs:50-57 | inside the screen the depth slot fits in the width·height buffer and decodes to row y and column x |
| Buffer.OffsetsInjective | src/buffer.rs:40-72 | two different screen positions never share a depth slot or a pixel |
| Buffer.ColumnOverflowsIntoNextRow | src/buffer.rs:43-46 | the column is unchecked: x = width addresses the first pixel of the row above |
| Buffer.Replace4 | src/buffer.rs:59-65 | the result keeps every byte except the four from the offset, which take the colour's bytes |
| Buffer.PixelBuffer.constructor | src/buffer.rs:75-84 | `PixelBuffer::new` stores the size and width·height·4 zero bytes |
| Buffer.PixelBuffer.Size | src/buffer.rs:34-38 | `size` is (width, height) |
| Buffer.PixelBuffer.At | src/buffer.rs:40-47 | reading pixel (x, y) succeeds exactly when the row does not underflow and the four bytes lie inside the data, and gives those four bytes |
| Buffer.PixelBuffer.Write | src/buffer.rs:59-65 | a write through `index_mut` succeeds exactly when the read would; it then replaces those four bytes with the colour and nothing else, and otherwise leaves the data alone |
| Buffer.ZBuffer.constructor | src/buffer.rs:92-98 | `ZBuffer::new` stores the size and width·height entries of `usize::MAX` |
| Buffer.ZBuffer.At | src/buffer.rs:50-57 | reading depth (x, y) succeeds exactly when x + y·width lies inside the data, and gives that entry |
| Buffer.ZBuffer.Write | src/buffer.rs:67-72 | a write succeeds exactly when the slot lies inside the data, and then changes only that slot |
| Surface.Element | src/window.rs:167-170 | the byte offset (height − y)·width + x, times 4, is a multiple of 4 that fits in u32, or nothing where u32 arithmetic fails |
| Surface.ElementClosedForm | src/frame.rs:202-205 | the offset is defined exactly when y ≤ height and ((height − y)·width + x)·4 fits in u32, and it then equals that value |
| Surface.RowAddressing | src/frame.rs:201-214 | rows count down from height: y = 0 addresses the pixel just past the end of the frame, so it panics, while rows 1 to height address pixels inside it |
| Surface.Put4 | src/frame.rs:207-213 | `copy_from_slice` replaces the four bytes from the offset with the colour and changes nothing else |
| Rasterizer.NewList | src/rasterizer.rs:32-35 | `EdgeList::new` is empty |
| Rasterizer.Push | src/rasterizer.rs:38-40 | `push` appends one pair at the end and keeps the earlier pairs in order |
| Rasterizer.GetEdges | src/rasterizer.rs:48-56 | `get_edges` fails with `NoEdge` exactly on an empty list, and otherwise gives the first and the last pair |
| Rasterizer.GetEdgesAfterPush | src/rasterizer.rs:38-56 | after a push the last edge is the pushed pair and the first is the old first pair, or the pushed pair when the list was empty |
| Rasterizer.MinMax | src/rasterizer.rs:78-92 | `min_max` gives a lower and an upper bound of the three values, each one of the three |
| Rasterizer.CastPoint | src/rasterizer.rs:98-99 | each coordinate is cast with `as i32`, truncating toward zero and saturating |
| Rasterizer.Driving | src/rasterizer.rs:109-193 | X drives when dx ≥ dy and dx ≥ dz, else Y when dy ≥ dx and dy ≥ dz, else Z |
| Rasterizer.FromFrame | src/rasterizer.rs:109-193 | relabelling the axes back from the driving frame is the inverse of relabelling into it |
| Rasterizer.FrameRoundTrip | src/rasterizer.rs:109-193 | going into the driving frame and back gives the point back |
| Rasterizer.GainWindow | src/rasterizer.rs:111-135 | a gain accumulator stays in the window (2·dm − 2·da, 2·dm] |
| Rasterizer.GainStep | src/rasterizer.rs:125-135 | one loop iteration keeps the accounting identity gain = 2·dm·(k+1) − da − 2·da·offset, whether or not the minor axis moves |
| Rasterizer.OffsetNearIdeal | src/rasterizer.rs:111-135 | a minor axis's offset stays within half a step of the ideal line, never passes its distance and reaches it exactly at the last step |
| Rasterizer.OffsetStep | src/rasterizer.rs:125-132 | per step of the driving axis, a minor coordinate moves by zero or one |
| Rasterizer.LengthIsLargest | src/rasterizer.rs:101-109 | the walk is as long as the distance along the driving axis, and no other axis is longer |
| Rasterizer.LinePoints | src/rasterizer.rs:116-136 | the inclusive range visits one point more than the driving distance |
| Rasterizer.LineStart | src/rasterizer.rs:113-123 | the first point pushed is the first endpoint |
| Rasterizer.LineEnd | src/rasterizer.rs:116-136 | the last point pushed is exactly the second endpoint |
| Rasterizer.LineDrive | src/rasterizer.rs:116-122 | the driving coordinate moves one unit per step toward the second endpoint, up the range or down its reverse |
| Rasterizer.LineWithinEndpoints | src/rasterizer.rs:97-194 | every visited point lies in the box spanned by the two endpoints |
| Rasterizer.LineConnected | src/rasterizer.rs:122-136 | consecutive points differ by at most one on each axis and by exactly one on the driving axis |
| Rasterizer.MinorNearIdeal | src/rasterizer.rs:111-135 | each minor coordinate is within half a unit of the ideal line through the endpoints |
| Rasterizer.Bucket | src/rasterizer.rs:123 | pushing the visited points into rows y − yoffset keeps the table's size |
| Rasterizer.BucketRows | src/rasterizer.rs:123 | each row is its old list followed by the (x, z) of the points on that scanline, in visiting order: nothing is lost or reordered |
| Rasterizer.OneCrossingPerRow | src/rasterizer.rs:150-151 | points on consecutive rows give exactly one crossing to each row in the run and none elsewhere |
| Rasterizer.YDrivenOnePerRow | src/rasterizer.rs:137-164 | with Y driving, each scanline from y1 to y2 gets exactly one pair and no other scanline gets any |
| Rasterizer.CurrentPoint | src/rasterizer.rs:109-193 | the loop state after k steps, read back out of the driving frame, is the k-th point of the walk |
| Rasterizer.WalkingStep | src/rasterizer.rs:125-136 | one iteration takes the loop state after k steps to the state after k + 1: the driving coordinate advances, and each minor coordinate advances where its gain was positive |
| Rasterizer.MinorStep | src/rasterizer.rs:125-135 | a positive gain moves the minor coordinate one unit toward the end and pays 2·da; the gain then rises by 2·dm |
| Rasterizer.RowsInSnoc | src/rasterizer.rs:123 | the in-table condition extends from a prefix of the walk to one more point whose row is inside |
| Rasterizer.BucketSnoc | src/rasterizer.rs:123 | pushing one more point extends the bucketed table by that point in its own row alone |
| Rasterizer.PushRow | src/rasterizer.rs:123 | `table[(y - yoffset) as usize].push(..)` succeeds exactly when the row is in the table, and then the table is the bucketing of one more point; a panic changes nothing |
| Rasterizer.DrawLine | src/rasterizer.rs:97-194 | `draw_line` succeeds exactly when every visited row is in the table, and the table then holds each visited point's (x, z) in its row, in order |
| Rasterizer.LinePointsInFrame | src/rasterizer.rs:97-109 | the points of an edge are its walk in the frame of its driving axis, read back out |
| Rasterizer.WalkInFrame | src/rasterizer.rs:109-193 | the loop in the driving frame succeeds exactly when every visited row is in the table, and then buckets each point's (x, z) into its row, in order |
| Rasterizer.LineRowsIn | src/rasterizer.rs:230-234 | an edge whose endpoint rows lie in [lo, hi] stays within a table of hi − lo + 1 rows offset by lo |
| Rasterizer.LeastFirst | src/rasterizer.rs:220-224 | the first swap keeps three vertices with an X coordinate |
| Rasterizer.LastTwoOrdered | src/rasterizer.rs:225-227 | the last swap keeps three vertices |
| Rasterizer.XOrdered | src/rasterizer.rs:219-227 | the three swaps keep three vertices |
| Rasterizer.XOrderedSorts | src/rasterizer.rs:219-227 | the last two vertices always end in X order, three distinct X values end sorted, and when the two later vertices tie below the first nothing moves |
| Rasterizer.XOrderedPermutes | src/rasterizer.rs:219-227 | the swaps only reorder the vertices |
| Rasterizer.Lines | src/rasterizer.rs:236-255 | each of the three edges runs from v0 or v1 to v1 or v2 |
| Rasterizer.LinesPermute | src/rasterizer.rs:250-255 | whichever order the gradients pick, the edges v0→v1, v1→v2 and v0→v2 are each drawn once |
| Rasterizer.SortByX | src/rasterizer.rs:217-227 | the in-place swaps of a copy of the vertices give `XOrdered` |
| Rasterizer.Bucket3 | src/rasterizer.rs:257-259 | drawing the three edges in turn keeps the table's size |
| Rasterizer.EdgeInTable | src/rasterizer.rs:230-234 | each edge stays within the table sized from the truncated least and greatest Y |
| Rasterizer.EdgesInTable | src/rasterizer.rs:230-259 | all three edges stay within that table, so no push panics |
| Rasterizer.EmptyTable | src/rasterizer.rs:234 | `vec![EdgeList::new(); n]` is n empty lists |
| Rasterizer.DrawEdges | src/rasterizer.rs:257-259 | the three `draw_line` calls into one table give `Bucket3` of the three edges |
| Rasterizer.FromPolygon | src/rasterizer.rs:216-267 | `From` sizes the table to the truncated Y range of the X-ordered vertices, fills it with the three edges in the given order, and sets a zero normal |
| Polygonal.RoundI32 | src/mesh/polygonal.rs:29 | `round() as i32` lands in the i32 range |
| Polygonal.ProjectCoord | src/mesh/polygonal.rs:28-29 | each projected and rounded coordinate lands in the i32 range, a zero w included |
| Polygonal.RoundVertexOfGrid | src/mesh/polygonal.rs:25-30 | a vertex already on the integer grid with w = 1 keeps its coordinates exactly |
| Polygonal.LeastFirst | src/mesh/polygonal.rs:36-40 | the first swap keeps three vertices |
| Polygonal.LastTwoOrdered | src/mesh/polygonal.rs:41-43 | the last swap keeps three vertices |
| Polygonal.OrderedByX | src/mesh/polygonal.rs:35-43 | the three swaps keep three vertices |
| Polygonal.OrderedByXSorts | src/mesh/polygonal.rs:35-43 | the swaps leave the vertices in non-decreasing X order on every input, ties included |
| Polygonal.OrderedByXPermutes | src/mesh/polygonal.rs:35-43 | the swaps only reorder the vertices |
| Polygonal.SortVertices | src/mesh/polygonal.rs:35-43 | `verticies.swap` on the local vector gives `OrderedByX` |
| Polygonal.YMinMax | src/mesh/polygonal.rs:46-56 | the pair is a lower and an upper bound of the three vertex Y values, each one of them |
| Polygonal.YRangeClamped | src/mesh/polygonal.rs:45-62 | both clamped bounds lie in [0, screen_height] in order, and a triangle on the screen keeps its exact Y range |
| Polygonal.ClampPoint | src/mesh/polygonal.rs:94-96 | x is clamped to [0, screen_width], y to [0, screen_height] and z to [0, i32::MAX], each kept when already inside |
| Polygonal.EmptyRows | src/mesh/polygonal.rs:71 | `vec![Vec::new(); n]` is n empty lists |
| Polygonal.Bucketed | src/mesh/polygonal.rs:90-99 | bucketing the points keeps the number of scanline lists |
| Polygonal.BucketedSomeIff | src/mesh/polygonal.rs:98 | bucketing panics exactly when some point's clamped row falls outside the table |
| Polygonal.BucketedOnScreen | src/mesh/polygonal.rs:94-98 | every recorded x stays on the screen |
| Polygonal.Plot | src/mesh/polygonal.rs:122-125 | one depth test keeps the buffer sizes |
| Polygonal.PlotRule | src/mesh/polygonal.rs:122-125 | a pixel is tested against the depth stored at its slot; a failing test changes nothing, and a passing one copies the colour and stores `z.round() as usize`; the index panics are exactly the out-of-range slots |
| Polygonal.FollowsTransitive | src/mesh/polygonal.rs:121-128 | "no depth grows and only the colour is written" composes over successive writes |
| Polygonal.PlotFollows | src/mesh/polygonal.rs:122-125 | one depth test never pushes a stored depth farther away and writes only the colour's bytes |
| Polygonal.Span | src/mesh/polygonal.rs:120-128 | filling a span keeps the buffer sizes |
| Polygonal.SpanFollows | src/mesh/polygonal.rs:120-128 | a span never pushes a stored depth farther away and writes only the colour |
| Polygonal.SpanStaysInRow | src/mesh/polygonal.rs:121-128 | a span of row y changes no depth slot outside its own pixels |
| Polygonal.SpanTestsEachPixel | src/mesh/polygonal.rs:120-128 | each pixel k of the span, at the depth `z` has reached after k increments of zstep, is tested against the depth stored before the span, and afterwards holds the rounded new depth if it was strictly nearer and the old depth otherwise |
| Polygonal.DepthAtClosedForm | src/mesh/polygonal.rs:120-127 | in exact arithmetic the depth after k increments of zstep is z1 + k·zstep |
| Polygonal.FillRow | src/mesh/polygonal.rs:101-129 | an empty scanline changes nothing, and a last bound left of the first panics on the usize subtraction |
| Polygonal.FillRowFollows | src/mesh/polygonal.rs:101-129 | filling one scanline never pushes a depth farther away and writes only the colour |
| Polygonal.FillRowsFollows | src/mesh/polygonal.rs:101-130 | filling all scanlines never pushes a depth farther away and writes only the colour |
| Polygonal.Vertices | src/mesh/polygonal.rs:25-43 | projection, rounding and ordering give three vertices |
| Polygonal.RasterizedGuards | src/mesh/polygonal.rs:32-95 | `rasterize` panics on an empty buffer and on a last row past i32; a last column past i32 panics only once an edge yields a point to clamp, and otherwise leaves the buffers unchanged |
| Polygonal.RasterizedFillsTable | src/mesh/polygonal.rs:32-130 | past the screen-size guards, `rasterize` either panics building the scan table or fills that table's rows |
| Polygonal.RasterizedFollows | src/mesh/polygonal.rs:22-131 | a completed `rasterize` never pushes a stored depth farther away and changes pixel bytes only to the colour's |
| Polygonal.ScanTableOnScreen | src/mesh/polygonal.rs:45-99 | every recorded bound is on the screen, and the table has one list per row from the clamped least to the clamped greatest vertex Y |
| Polygonal.PlotAt | src/mesh/polygonal.rs:122-125 | the span loop body on the two buffers succeeds exactly when `Plot` does and leaves the buffers as `Plot` says |
| Polygonal.FillSpan | src/mesh/polygonal.rs:120-128 | the span loop succeeds exactly when `Span` does and leaves the buffers as `Span` says |
| Polygonal.SpanNoneStaysNone | src/mesh/polygonal.rs:121-128 | a span that panics at some pixel panics however long it is |
| Polygonal.FillScanline | src/mesh/polygonal.rs:102-129 | one scanline's loop body succeeds exactly when `FillRow` does and leaves the buffers as it says |
| Polygonal.FillRowsNoneStaysNone | src/mesh/polygonal.rs:101-130 | once a scanline panics, filling more scanlines still panics |
| Polygonal.BucketedNoneStaysNone | src/mesh/polygonal.rs:90-99 | once a push panics, pushing more points still panics |
| Polygonal.PushBound | src/mesh/polygonal.rs:94-98 | `scanlines[y - ymin].push(..)` succeeds exactly when the clamped row is in the table, and appends the clamped bound to that row alone |
| Polygonal.BucketPoints | src/mesh/polygonal.rs:90-99 | the push loop over the walked points gives `Bucketed` of the empty table |
| Polygonal.BuildTable | src/mesh/polygonal.rs:25-99 | vertex preparation and bucketing give the specification `ScanTable` |
| Polygonal.FillAll | src/mesh/polygonal.rs:101-130 | the scanline loop succeeds exactly when `FillRows` does and leaves the buffers as it says |
| Polygonal.Rasterize | src/mesh/polygonal.rs:22-131 | `rasterize` succeeds exactly when the specification `Rasterized` does, and leaves the pixel and depth buffers as it says |
| Bresenham.XWalk | src/pipeline.rs:155-163 | the X-driven loop over the half-open range x1..x2 visits one pixel per x |
| Bresenham.YWalk | src/pipeline.rs:180-188 | the Y-driven loop over the half-open range y1..y2 visits one pixel per y |
| Bresenham.XWalkAt | src/pipeline.rs:150-163 | the loop state (x, y) at step k is the k-th pixel of the X-driven walk |
| Bresenham.YWalkAt | src/pipeline.rs:175-188 | the loop state (x, y) at step k is the k-th pixel of the Y-driven walk |
| Bresenham.MinorStep | src/pipeline.rs:158-162 | a positive accumulator moves the minor coordinate by `inc_dec` and pays 2·da; the accumulator then earns 2·dm |
| Bresenham.Advance | src/pipeline.rs:158-162 | the loop's update takes the minor coordinate and the accumulator after k steps to their values after k + 1 steps |
| Bresenham.MinorTracksLine | src/frame.rs:150-169 | the minor coordinate stays between its endpoints, moves by at most one per step, and is the nearest grid value to the ideal line |
| Bresenham.XWalkWithin | src/frame.rs:140-169 | every pixel of an X-driven walk lies in the box of the endpoints, and consecutive pixels are neighbours |
| Bresenham.YWalkWithin | src/frame.rs:170-196 | every pixel of a Y-driven walk lies in the box of the endpoints, and consecutive pixels are neighbours |
| Pipeline.MinMax | src/pipeline.rs:194-208 | `min_max` gives a lower and an upper bound of the three values, each one of the three |
| Pipeline.LineXDriven | src/pipeline.rs:139-163 | when dx > dy the line visits exactly dx pixels, one per x from min(x1, x2) upward, the end excluded |
| Pipeline.LineYDriven | src/pipeline.rs:164-189 | otherwise it visits exactly dy pixels, one per y from min(y1, y2) upward; a zero-length line visits nothing |
| Pipeline.LineSymmetric | src/pipeline.rs:142-145 | because the endpoints are swapped to make the driving axis rise, both directions of a line visit the same pixels |
| Pipeline.LineWithinBox | src/pipeline.rs:127-190 | every visited pixel lies in the box of the endpoints, and consecutive pixels are neighbours |
| Pipeline.Bucket | src/pipeline.rs:156 | pushing each pixel's x into row y − y_offset keeps the number of rows |
| Pipeline.BucketRows | src/pipeline.rs:156 | each row is its old contents followed by the x of every pixel on that scanline, in visiting order |
| Pipeline.OneCrossingPerRow | src/pipeline.rs:180-181 | pixels on consecutive rows put one x into each row of the run and none elsewhere |
| Pipeline.YDrivenOnePerRow | src/pipeline.rs:164-189 | with Y driving, each row from min(y1, y2) up to but excluding max(y1, y2) gets exactly one x and no other row gets any |
| Pipeline.LineRowsIn | src/pipeline.rs:127-190 | a line whose endpoint rows lie in [lo, hi] stays within hi − lo + 1 rows from lo |
| Pipeline.RowsInSnoc | src/pipeline.rs:156 | the in-table condition extends from a prefix of the walk to one more pixel whose row is inside |
| Pipeline.PushRow | src/pipeline.rs:156 | `edge_matrix[(y - y_offset) as usize].push(x)` succeeds exactly when the row is in the table, and then adds that one pixel to the bucketing |
| Pipeline.WalkX | src/pipeline.rs:150-163 | the X-driven loop succeeds exactly when every row of the walk is in the table, and then buckets the walk |
| Pipeline.RowRange | src/pipeline.rs:67-79 | the row range computed before the table is built is `YRange`: the least and greatest vertex rows, clamped to the screen, `None` where a clamp panics |
| Pipeline.WalkY | src/pipeline.rs:175-188 | the Y-driven loop succeeds exactly when every row of the walk is in the table, and then buckets the walk |
| Pipeline.DrawLine | src/pipeline.rs:127-190 | `draw_line` succeeds exactly when every pixel's row is in the table, and then the table holds the line's pixels bucketed by row |
| Pipeline.SortByX | src/pipeline.rs:85-93 | the swaps on the local polygon give `XOrdered` |
| Pipeline.XOrderedSorts | src/pipeline.rs:85-93 | the last two vertices always end in X order and three distinct X values end sorted; when the later two tie below the first nothing moves; the normal is untouched |
| Pipeline.Reordered | src/pipeline.rs:85-93 | each order the swaps can produce is a permutation |
| Pipeline.XOrderedPermutes | src/pipeline.rs:85-93 | the swaps only reorder the three vertices |
| Pipeline.XOrderedMembers | src/pipeline.rs:85-93 | each sorted vertex is one of the given three |
| Pipeline.Traced | src/pipeline.rs:96-121 | drawing the edges in turn keeps the number of rows |
| Pipeline.EmptyRows | src/pipeline.rs:81-83 | the `push(Vec::new())` loop leaves n empty rows |
| Pipeline.DrawEdges | src/pipeline.rs:96-121 | the three `draw_line` calls succeed exactly when `Traced` does, and leave the table it gives |
| Pipeline.RasterizePolygon | src/pipeline.rs:62-124 | `rasterize_polygon` gives exactly the specification `Rasterized`, with `None` for each panic |
| Pipeline.RasterizedShape | src/pipeline.rs:68-83 | the offset is the least vertex row clamped to 0 and the rows cover y_min..=y_max; with a height that fits in i32 the table ends by the last screen row |
| Pipeline.YRangeShape | src/pipeline.rs:68-83 | the offset is the least vertex row clamped to 0, and with a height that fits in i32 the rows end by the last screen row |
| Pipeline.EdgeOnScreen | src/pipeline.rs:96-121 | an edge whose endpoint rows lie in the table stays within it |
| Pipeline.EdgesBetween | src/pipeline.rs:85-121 | the sort keeps the vertices, so each edge's endpoint rows lie between the least and the greatest vertex row |
| Pipeline.TracedRows | src/pipeline.rs:96-121 | edges that stay within the table are traced without a panic, and each row holds its old contents followed by every edge's crossings of that scanline, in drawing order |
| Pipeline.EdgesInTable | src/pipeline.rs:68-121 | every edge stays within the rows from the least to the greatest vertex row |
| Pipeline.YRangeOnScreen | src/pipeline.rs:74-79 | on a screen that holds every vertex row, neither clamp applies |
| Pipeline.OnScreenSucceeds | src/pipeline.rs:62-124 | a triangle on a screen whose height fits in i32 never panics; the table covers the least to the greatest vertex row, and each row holds the three edges' crossings of its scanline |
| Pipeline.TableForRange | src/pipeline.rs:62-124 | given the row range and edges inside it, the call succeeds and each row holds the three edges' crossings of its scanline |
| Pipeline.GetPolygonsToDraw | src/pipeline.rs:33-58 | the loop gives exactly the specification `PolygonsToDraw` |
| Pipeline.PolygonsToDrawConcat | src/pipeline.rs:36-55 | the filter works element by element: a polygon is kept, mapped to the screen, exactly when all three vertices lie strictly inside NDC space |
| Numeric.ScaleInside | src/pipeline.rs:44-51 | a coordinate strictly inside (−1, 1) maps strictly inside (0, size); src/frame.rs:115-128 scales its line ends the same way |
| Pipeline.PolygonsToDrawFrom | src/pipeline.rs:36-55 | every kept polygon is an input polygon lying inside NDC space, mapped |
| Pipeline.VertexOnScreen | src/pipeline.rs:43-51 | a vertex inside NDC space lands strictly inside the screen and keeps z in (−1, 1) |
| Pipeline.ScreenedOnScreen | src/pipeline.rs:43-53 | every vertex of a mapped polygon lies strictly inside the screen |
| Pipeline.PolygonsToDrawOnScreen | src/pipeline.rs:33-58 | every vertex of every kept polygon lies strictly inside the screen |
| Shapes.Coords | src/shapes/primitives.rs:1-2 | a point has four coordinates |
| Shapes.TransformToCopy | src/shapes/primitives.rs:5-24 | `transform_to_copy` is the row-vector product of the point with the 4×4 array |
| Shapes.TransformToCopyComposes | src/shapes/primitives.rs:5-24 | transforming by a and then by b is transforming once by the product a·b |
| Shapes.PointCell.constructor | src/shapes/primitives.rs:1-2 | a slot holding the given point |
| Shapes.PointCell.Transform | src/shapes/primitives.rs:27-47 | `transform` computes from the saved `old_self`, so the point ends as exactly what `transform_to_copy` returns |
| Shapes.Corners | src/shapes/primitives.rs:61 | a triangle has three corners |
| Shapes.NewLine | src/shapes/primitives.rs:53-58 | `Line::new` copies both endpoints |
| Shapes.NewTriangle | src/shapes/primitives.rs:63-69 | `Triangle::new` copies the corners in order |
| Shapes.GetLines | src/shapes/primitives.rs:71-77 | the outline a→b, b→c, c→a: line i starts at corner i and ends where the next line starts, so the outline is closed |
| Shapes.Offset | src/shapes/cube.rs:12-18 | x, y and z move back by half the edge length, truncated as i32 division does; w is copied |
| Shapes.Faces | src/shapes/cube.rs:73-92 | the cube holds twelve triangles |
| Shapes.NewCubeShape | src/shapes/cube.rs:9-96 | `Cube::new` (`NewCube`) stores the position and edge length given, and every vertex of its twelve triangles is a corner of the cube of edge `vertex_length as i32` at the offset |
| Shapes.FacePairs | src/shapes/cube.rs:73-92 | triangles 2f and 2f + 1 lie in the plane of face f and share a diagonal, so together they cover that face |
| Shapes.AllLines | src/shapes/cube.rs:98-137 | the outline of a list of triangles has three lines per triangle |
| Shapes.AllLinesAt | src/shapes/cube.rs:98-137 | line 3k + j of the outline is line j of triangle k |
| Shapes.CubeLinesLayout | src/shapes/cube.rs:98-137 | `get_lines` gives 36 lines, with triangle k's closed outline at positions 3k, 3k + 1 and 3k + 2 |
| Window.Shaded | src/window.rs:165-183 | `draw_pixel` succeeds exactly when the u32 offset is defined and its four bytes lie inside the frame, and keeps the frame's size |
| Window.AlphaOf | src/window.rs:179-182 | the alpha byte of a pixel is the last of its four bytes |
| Window.DeeperTransitive | src/window.rs:179-182 | "no alpha falls and a pixel changes only where its alpha rose" composes over successive writes |
| Window.Replace4Deeper | src/window.rs:179-182 | copying a colour of greater alpha over an aligned pixel raises that pixel's alpha and changes no other pixel |
| Window.ShadedRule | src/window.rs:179-182 | a pixel whose stored alpha is smaller than the colour's receives the whole colour; otherwise the write changes nothing |
| Window.ShadedDeeper | src/window.rs:165-183 | every pixel write keeps the alpha-as-depth discipline |
| Window.IntensityRange | src/window.rs:113-116 | a normal facing the camera (z = −1) gives green 254, one facing away (z = 1) gives 0, and the intensity never rises as the normal turns away |
| Window.Shade | src/window.rs:113-136 | the fill colour `[0, intensity, 0, z as u8]` has four bytes |
| Window.Span | src/window.rs:132-140 | a span of the fill keeps the frame's size |
| Window.SpanComposes | src/window.rs:135-140 | drawing a span is drawing its first k pixels and then the rest |
| Window.SpanStep | src/window.rs:135-140 | one more pixel writes `[0, g, 0, z as u8]` at `(x0 + n) as u32`, and z then equals the start z plus n + 1 steps |
| Window.SpanNoneStays | src/window.rs:135-140 | a span that panics at some pixel panics however long it is |
| Window.SpanSomeIff | src/window.rs:124-140 | a span panics exactly when one of its pixels cannot be addressed |
| Window.SpanDeeper | src/window.rs:135-140 | a span keeps the alpha-as-depth discipline |
| Window.FillRow | src/window.rs:122-145 | one scanline keeps the frame's size; a list without edges is only reported |
| Window.FillRows | src/window.rs:119-148 | the fill pass keeps the frame's size |
| Window.FillRowsNoneStays | src/window.rs:121-147 | once a scanline panics, the fill pass panics |
| Window.FillRowsSomeIff | src/window.rs:119-148 | the fill pass panics exactly when some scanline's span has a pixel that cannot be addressed |
| Window.FillRowsFit | src/window.rs:119-148 | a fill pass that does not panic has every scanline's span addressable |
| Window.FitRowsFill | src/window.rs:119-148 | a fill pass whose every scanline's span is addressable does not panic |
| Window.FillRowDeeper | src/window.rs:122-145 | one scanline of the fill keeps the alpha-as-depth discipline |
| Window.FillRowsDeeper | src/window.rs:119-148 | the whole fill pass keeps the alpha-as-depth discipline |
| Window.WireRow | src/window.rs:154-158 | one scanline of the wireframe keeps the frame's size |
| Window.WireRowNoneStays | src/window.rs:154-158 | once a crossing panics, the scanline panics |
| Window.WireRowSomeIff | src/window.rs:154-158 | a wireframe scanline panics exactly when one of its crossings inside the window's width cannot be addressed; the others are skipped |
| Window.WireRowDeeper | src/window.rs:154-158 | one wireframe scanline keeps the alpha-as-depth discipline |
| Window.WireRows | src/window.rs:151-161 | the wireframe pass keeps the frame's size |
| Window.WireRowsNoneStays | src/window.rs:153-160 | once a scanline panics, the wireframe pass panics |
| Window.WireRowsDeeper | src/window.rs:151-161 | the whole wireframe pass keeps the alpha-as-depth discipline |
| Window.Drawn | src/window.rs:110-162 | `draw_polygon` keeps the frame's size |
| Window.DrawnDeeper | src/window.rs:110-162 | whatever the style, drawing a polygon lowers no pixel's alpha and changes a pixel only where its alpha rose |
| Window.GraphicsWindow.constructor | src/window.rs:32-100 | a window of the given size with a zeroed frame and the projection given |
| Window.GraphicsWindow.Clear | src/window.rs:103-107 | `clear` sets every byte of the frame to zero |
| Window.GraphicsWindow.DrawPixel | src/window.rs:165-183 | `draw_pixel` succeeds exactly when the pixel can be addressed, then leaves the frame as `Shaded` says, and otherwise changes nothing |
| Window.GraphicsWindow.FillSpan | src/window.rs:132-140 | the span loop succeeds exactly when `Span` does and leaves the frame as it says |
| Window.GraphicsWindow.FillLine | src/window.rs:122-145 | one scanline of the fill succeeds exactly when `FillRow` does and leaves the frame as it says |
| Window.GraphicsWindow.FillPass | src/window.rs:119-148 | the fill loop succeeds exactly when `FillRows` does and leaves the frame as it says |
| Window.GraphicsWindow.WireLine | src/window.rs:154-158 | one wireframe scanline succeeds exactly when `WireRow` does and leaves the frame as it says |
| Window.GraphicsWindow.WirePass | src/window.rs:151-161 | the wireframe loop succeeds exactly when `WireRows` does and leaves the frame as it says |
| Window.GraphicsWindow.DrawPolygon | src/window.rs:110-162 | `draw_polygon` succeeds exactly when `Drawn` does and leaves the frame as it says |
| Frame.ClearColour | src/frame.rs:66-75 | each pixel is white or black; it panics exactly for a zero width, or when `height - 2` underflows and is reached because no earlier test held |
| Frame.ClearBorder | src/frame.rs:66-75 | inside a w × h frame the pixel at (x, y) is white exactly on the border two pixels wide and black inside, with no panic |
| Frame.Cleared | src/frame.rs:64-77 | the loop over pixels keeps the buffer's size |
| Frame.ClearedNoneStays | src/frame.rs:66-76 | once a pixel panics, `clear` panics |
| Frame.ClearedSomeIff | src/frame.rs:64-77 | `clear` panics exactly when some pixel's colour does |
| Frame.ReplaceLastPixel | src/frame.rs:71-75 | writing one pixel leaves the pixels before it unchanged |
| Frame.ClearedPixels | src/frame.rs:64-77 | after `clear` each pixel holds its border-rule colour and any trailing partial pixel is untouched |
| Frame.ClearInFrame | src/frame.rs:66-75 | on a frame of w·h pixels `clear` panics only for a zero width |
| Frame.Paint | src/frame.rs:201-214 | `draw_pixel` succeeds exactly when the u32 offset is defined and its four bytes lie inside the frame, and keeps the frame's size |
| Frame.Painted | src/frame.rs:155-196 | painting a walk keeps the frame's size |
| Frame.PaintedStep | src/frame.rs:161-162 | one more pixel of a walk is painted at `(x as u32, y as u32)` |
| Frame.PaintedNoneStays | src/frame.rs:155-196 | once a pixel panics, the walk panics |
| Frame.PaintedSomeIff | src/frame.rs:155-196 | a walk panics exactly when one of its pixels cannot be addressed |
| Frame.AlignedApart | src/frame.rs:202-205 | two different pixel offsets address disjoint byte ranges |
| Frame.PaintKeeps | src/frame.rs:213 | a pixel already in colour c keeps it when c is painted anywhere |
| Frame.PaintedCovers | src/frame.rs:155-196 | after a walk is painted every one of its pixels shows the colour, whatever the order of the walk |
| Frame.PaintedOnlyColour | src/frame.rs:155-196 | a painted walk changes pixels only to the colour |
| Frame.FrameLineAsWritten | src/frame.rs:135-197 | because the swapped endpoints are shadowed, a line given in order draws exactly the pixels of the pipeline's `draw_line`, and one given in reverse draws nothing |
| Frame.Ndc | src/frame.rs:80-99 | the divide by w succeeds only for a non-zero w; it then gives w = 1 and coordinates that times the old w give back the projected ones |
| Frame.ScreenCoordinate | src/frame.rs:115-137 | a coordinate strictly inside (−1, 1), scaled and cast with `as i32`, lands on a column in [0, size) |
| Frame.ScreenPoint | src/frame.rs:101-137 | an end that passes the view test lands on the screen |
| Frame.FrameLineInBox | src/frame.rs:135-197 | a line between on-screen ends paints only on-screen pixels |
| Frame.GatedOnScreen | src/frame.rs:101-131 | the segment that passes the gate paints only on-screen pixels |
| Frame.Line3DOnScreen | src/frame.rs:80-132 | every pixel `draw_line_3d` paints has 0 ≤ x < width and 0 ≤ y < height |
| Frame.Frame.constructor | src/frame.rs:27-61 | a frame of the given size with width·height·4 zero bytes and the projection given |
| Frame.Frame.Clear | src/frame.rs:64-77 | `clear` succeeds exactly when `Cleared` does and leaves the frame it gives |
| Frame.Frame.DrawPixel | src/frame.rs:201-214 | `draw_pixel` succeeds exactly when `Paint` does and leaves the frame it gives; a panic changes nothing |
| Frame.Frame.PaintNext | src/frame.rs:162 | drawing pixel k of a walk whose first k pixels are painted either leaves the first k + 1 painted or makes the whole walk panic |
| Frame.Frame.WalkX | src/frame.rs:156-169 | the X-driven loop succeeds exactly when painting its walk does and leaves that frame |
| Frame.Frame.WalkY | src/frame.rs:183-196 | the Y-driven loop succeeds exactly when painting its walk does and leaves that frame |
| Frame.Frame.DrawLine2D | src/frame.rs:135-197 | `draw_line_2d` succeeds exactly when painting the line's walk in green does and leaves that frame |
| Frame.Frame.DrawLine3D | src/frame.rs:80-132 | `draw_line_3d` paints exactly the gated, projected segment's walk in green |
| Frame.Frame.Resize | src/frame.rs:228-232 | `resize` records the new size and keeps the buffer and the projection |
| Primitives.Coords | src/primitives.rs:5-10 | a vertex has four components, x, y, z, w |
| Primitives.FromCoords | src/primitives.rs:5-10 | building a vertex from four components gives back those components |
| Primitives.CoordsRoundTrip | src/primitives.rs:5-10 | reading the components out and building the vertex again gives the same vertex |
| Primitives.New | src/primitives.rs:17-22 | `Vertex::new` stores x, y, z and w as given |
| Primitives.Add | src/primitives.rs:24-35 | `+` of two vertices adds all four components, w included |
| Primitives.Sub | src/primitives.rs:48-59 | `-` of two vertices subtracts all four components |
| Primitives.AddScalar | src/primitives.rs:36-47 | `+` of a scalar adds it to every component, w included |
| Primitives.SubScalar | src/primitives.rs:60-71 | `-` of a scalar subtracts it from every component |
| Primitives.Mul | src/primitives.rs:84-95 | `*` of a scalar scales every component |
| Primitives.Div | src/primitives.rs:72-83 | `/` of a non-zero scalar divides every component |
| Primitives.ArithmeticInverses | src/primitives.rs:24-95 | subtracting undoes adding, for vertices and for scalars, and dividing undoes multiplying by a non-zero scalar |
| Primitives.RowTimesColumn | src/primitives.rs:96-119 | component j of the product is x·a[0][j] + y·a[1][j] + z·a[2][j] + w·a[3][j] |
| Primitives.TransformIsRowTimes | src/primitives.rs:96-119 | the written-out `vertex * matrix` is the row-vector product of the generic matrix code |
| Primitives.Compose | src/primitives.rs:179-257 | `TransformMatrix * TransformMatrix` is a 4×4 matrix whose entry (i, j) is Σₖ a[i][k]·b[k][j] |
| Primitives.TransformComposes | src/primitives.rs:96-257 | multiplying a vertex by a and then by b is multiplying it by a·b |
| Primitives.ComposeAssociative | src/primitives.rs:179-257 | the matrix product is associative, and the identity leaves a vertex unchanged |
| Primitives.InNdcSpace | src/primitives.rs:125-131 | a vertex is in NDC space exactly when x, y and z lie strictly inside (−1, 1) |
| Primitives.NdcBoundaryExcluded | src/primitives/vertex.rs:127-133 | a vertex on a face of the cube is outside, and w never changes the answer |
| Primitives.NewPolygon | src/primitives.rs:271-275 | `Polygon::new` stores the three corners in order and the normal as given |
| Physics.ClampAngle | src/physics.rs:81-85 | `clamp(-180.0, 180.0)` lands in [−180, 180], keeps an angle already there, and sends angles below or above to the nearer end |
| Physics.WrapAngleRange | src/physics.rs:95-100 | the angle the two loops leave lies in [180, 540) and differs from the input by a whole number of turns |
| Physics.WrapAngleUnique | src/physics.rs:95-100 | any angle in [180, 540) a whole number of turns from the input is the wrapped one |
| Physics.WrapAngleIdempotent | src/physics.rs:102-114 | wrapping an angle twice, as the y loops do, is the same as wrapping it once |
| Physics.WrapAnglePeriodic | src/physics.rs:95-100 | the wrapped angle depends only on the input modulo a whole turn |
| Physics.Wrap | src/physics.rs:95-100 | the `while > 180 { −= 360 }` and `while < 180 { += 360 }` loops terminate with exactly the wrapped angle |
| Physics.PhysicalState.constructor | src/physics.rs:36-50 | `PhysicalState::new` is at the origin with no rotation |
| Physics.PhysicalState.Clone | src/physics.rs:27-28 | the derived clone copies the position and the orientation |
| Physics.PhysicalState.SetAbsolutePosition | src/physics.rs:63-67 | the position becomes (x, y, z) and the orientation is unchanged |
| Physics.PhysicalState.SetRelativePosition | src/physics.rs:72-76 | the deltas are added to the position and the orientation is unchanged |
| Physics.PhysicalState.SetAbsoluteOrientation | src/physics.rs:81-85 | each angle becomes the clamped input and the position is unchanged |
| Physics.PhysicalState.SetRelativeOrientation | src/physics.rs:90-115 | the deltas are added, x and y are wrapped into [180, 540), z is never wrapped, and the position is unchanged |
| MeshVertex.New | src/mesh/vertex.rs:29-42 | `Vertex::new` stores x, y, z and w as given |
| MeshVertex.VectorFrom | src/mesh/vertex.rs:58-64 | `a.vector_from(p)` is the vector that carries p onto a in x, y and z |
| MeshVertex.VectorTo | src/mesh/vertex.rs:66-72 | `a.vector_to(p)` is the vector that carries a onto p in x, y and z |
| MeshVertex.NewBox | src/mesh/geometry/bounding_box.rs:39-66 | on each axis `BoundingBox::new` gives an ordered (min, max) pair made of the two corners' coordinates |
| MeshVertex.VectorFromTo | src/mesh/vertex.rs:58-72 | `vector_from` and `vector_to` are each other's negation, and each is the other with the points swapped |
| MeshVertex.VectorToReaches | src/mesh/vertex.rs:66-112 | `vertex + vector` (`AddVector`): adding `a.vector_to(p)` to a moves it onto p in x, y and z and keeps a's w, and adding `a.vector_from(p)` then undoes the move |
| MeshVertex.ScaleRoundTrip | src/mesh/vertex.rs:141-175 | scalar `*` then `/` by a non-zero s gives the vertex back, and `*` scales w too |
| MeshVertex.NewBoxShape | src/mesh/geometry/bounding_box.rs:39-66 | `BoundingBox::new` gives ordered axes, does not depend on the order of its corners, and collapses an axis on which they agree |
| MeshVertex.BoundByCorners | src/mesh/vertex.rs:75-87 | `bound_by` (`BoundBy`) of the box of two corners holds exactly when each coordinate lies between the corners' coordinates, in either order; both corners are bound, with any w |
| MeshVertex.BoundsAgree | src/mesh/geometry/bounding_box.rs:100-105 | on three axes `BBox::bounds` of (x, y, z) agrees with `bound_by` of the vertex |
| MeshVertex.BoundsShorter | src/mesh/geometry/bounding_box.rs:100-105 | the coordinates are zipped with the ranges, so a coordinate beyond the ranges is never tested and an empty point is always bounded |
| MeshVertex.NdcBoxAgainstStrict | src/mesh/mesh.rs:153-165 | the closed NDC box of the mesh holds inside and on the faces; the strict `in_ndc_space` implies it, but a vertex on a face passes only the closed test |
| Mesh.CubeCorners | src/mesh/mesh.rs:68-75 | `load_cube` pushes eight corners ±edge/2 with w = 1: x positive for odd i, y positive from i = 4 on, z positive when bit 1 of i is clear |
| Mesh.CubeCornersDistinct | src/mesh/mesh.rs:68-75 | for a non-zero edge the eight corners are pairwise distinct |
| Mesh.CubeTriangles | src/mesh/mesh.rs:77-88 | twelve triangles, triangle k with normal index k, every vertex index below 8, and each triangle's three corners on one face of the cube |
| Mesh.Zeros | src/mesh/mesh.rs:90-92 | one zero normal per polygon |
| Mesh.Normalled | src/mesh/mesh.rs:127-140 | the written normal list keeps its length |
| Mesh.NormalledSomeIff | src/mesh/mesh.rs:127-140 | `find_normals` completes exactly when every polygon's vertex and normal indices are in range |
| Mesh.NormalledSlot | src/mesh/mesh.rs:127-140 | a slot no polygon names keeps its old normal; a named slot holds the normal of the last polygon naming it, computed from that polygon's vertices |
| Mesh.ComputeNormals | src/mesh/mesh.rs:127-140 | the loop over the polygons succeeds exactly when no index panics and then gives the normal list specified above |
| Mesh.NdcVertexMeaning | src/mesh/mesh.rs:144-149 | the projection is defined exactly when the clip-space w is non-zero, gives w = 1, and scaled back by that w is the transformed vertex |
| Mesh.NdcAllHomogenised | src/mesh/mesh.rs:144-149 | after `project_to_ndc` every vertex has w = 1 and there are as many as before |
| Mesh.ProjectAll | src/mesh/mesh.rs:144-149 | the loop over the vertices succeeds exactly when no vertex has w = 0, and then gives each vertex projected and homogenised |
| Mesh.KeptMembers | src/mesh/mesh.rs:153-165 | a polygon is made visible exactly when it is in the list and one of its three vertices is inside the NDC box; no more are kept than listed |
| Mesh.KeptAppend | src/mesh/mesh.rs:153-165 | filtering two lists one after the other gives the two filtered lists in order, so the kept polygons keep their list order |
| Mesh.KeptWeaker | src/mesh/mesh.rs:153-165 | a looser inclusion test keeps every polygon a stricter one keeps |
| Mesh.FilterVisible | src/mesh/mesh.rs:153-165 | the loop succeeds exactly when no index panics, and appends the kept polygons to the visible list without clearing it |
| Mesh.ScreenVertexMeaning | src/mesh/mesh.rs:169-179 | the screen mapping keeps w, can be undone on a non-degenerate screen, and maps NDC [−1, 1] onto [0, width], [0, height] and depth [0, 2000] |
| Mesh.ScreenDepthReversed | src/mesh/mesh.rs:169-179 | a vertex with the smaller NDC depth gets the larger screen depth |
| Mesh.ScreenProject | src/mesh/mesh.rs:169-179 | the loop maps every vertex, position by position, to its screen-space vertex |
| Mesh.TransformIdentity | src/mesh/mesh.rs:112-123 | multiplying a vertex by the identity matrix leaves it as it is |
| Mesh.TransformedMeaning | src/mesh/mesh.rs:112-123 | the translation keeps each vertex's rotated w, and with no rotation and the object at the origin the vertices are unchanged |
| Mesh.TransformAll | src/mesh/mesh.rs:112-123 | the loop rotates every vertex and then moves it by the position |
| Mesh.PipelinedShows | src/mesh/mesh.rs:99-108 | after the pipeline the vertex and normal lists keep their lengths, the old visible list is a prefix of the new one, and every appended polygon is a mesh polygon with a vertex inside the NDC box after the transformation and projection |
| Mesh.FacesInOrder | src/mesh/mesh.rs:186-239 | iterating yields every listed polygon exactly once and in list order with its own three vertices and its normal, provided every index is in range, and panics otherwise |
| Mesh.PolyIterator.constructor | src/mesh/mesh.rs:32-36 | the iterator holds the vertex, normal and polygon lists it is given |
| Mesh.PolyIterator.Next | src/mesh/mesh.rs:218-239 | `None` once the polygons are gone; otherwise the first polygon is consumed and comes back resolved, or a panic on a bad index; the vertex and normal lists are untouched |
| Mesh.Mesh.constructor | src/mesh/mesh.rs:42-59 | `Mesh::default` has empty lists and a physical state at the origin with no rotation |
| Mesh.Mesh.Clone | src/mesh/mesh.rs:22-30 | the derived clone copies the four lists and the physical state into a fresh state |
| Mesh.Mesh.LoadCube | src/mesh/mesh.rs:64-93 | the corners and triangles are appended, and one zero normal is pushed for every polygon now in the list, old ones included |
| Mesh.Mesh.ApplyTransformations | src/mesh/mesh.rs:112-123 | the vertices become the rotated and translated ones; everything else is unchanged |
| Mesh.Mesh.FindNormals | src/mesh/mesh.rs:127-140 | succeeds exactly when no index panics, and then the normal list is the specified one; everything else is unchanged |
| Mesh.Mesh.ProjectToNdc | src/mesh/mesh.rs:144-149 | succeeds exactly when no vertex has w = 0, and then the vertices are the projected ones; everything else is unchanged |
| Mesh.Mesh.PolygonsInView | src/mesh/mesh.rs:153-165 | succeeds exactly when no index panics, and appends the polygons with a vertex inside the closed NDC box; everything else is unchanged |
| Mesh.Mesh.ProjectToScreen | src/mesh/mesh.rs:169-179 | the vertices become their screen-space images; everything else is unchanged |
| Mesh.Mesh.RunPipeline | src/mesh/mesh.rs:99-108 | the five steps run in order on a fresh clone, the result is the specified pipeline output, and the receiver is left as it was |
| Mesh.Mesh.IterAllPolygons | src/mesh/mesh.rs:186-196 | a fresh iterator over the mesh's vertices, normals and all polygons |
| Mesh.Mesh.IterVisiblePolygons | src/mesh/mesh.rs:200-210 | a fresh iterator over the mesh's vertices, normals and visible polygons only |
| MeshLegacy.MovedAgainstTranslated | src/mesh/mesh_transform.rs:34-37 | adding the position vertex moves w too, by the position's w; with a zero w it agrees with the vector translation of src/mesh/mesh.rs |
| MeshLegacy.MoveAll | src/mesh/mesh_transform.rs:34-37 | the loop rotates every vertex and then adds the position to it |
| MeshLegacy.StrictKeepsFewer | src/mesh/mesh_transform.rs:77-87 | the strict `in_ndc_space` test keeps no polygon the closed box test would drop, and a triangle whose only vertex lies on a face of the cube is kept by the closed test alone |
| MeshLegacy.Mesh.Clone | src/mesh/mesh_transform.rs:9 | the clone copies the four lists, the orientation and the position |
| MeshLegacy.Mesh.ApplyTransformations | src/mesh/mesh_transform.rs:22-38 | the vertices become the rotated ones plus the position; everything else is unchanged |
| MeshLegacy.Mesh.FindNormals | src/mesh/mesh_transform.rs:43-61 | succeeds exactly when no index panics, and then each polygon's normal is written into the slot it names; everything else is unchanged |
| MeshLegacy.Mesh.ProjectToNdc | src/mesh/mesh_transform.rs:66-72 | succeeds exactly when no vertex has w = 0, and then the vertices are the projected ones; everything else is unchanged |
| MeshLegacy.Mesh.PolygonsInView | src/mesh/mesh_transform.rs:77-87 | succeeds exactly when no index panics, and appends the polygons with a vertex strictly inside NDC space; everything else is unchanged |
| MeshLegacy.Mesh.ProjectToScreen | src/mesh/mesh_transform.rs:92-102 | the vertices become their screen-space images; everything else is unchanged |
| MeshLegacy.Mesh.RunPipeline | src/mesh/mesh_transform.rs:8-17 | the five steps run in order on a fresh clone, the result is the pipeline output with the strict view test, and the receiver is left as it was |
| MeshLegacy.Mesh.AbsOrientation | src/mesh/mesh_translate.rs:9-13 | each angle becomes the input clamped into [−180, 180]; everything else is unchanged |
| MeshLegacy.Mesh.RelOrientation | src/mesh/mesh_translate.rs:18-43 | the deltas are added, x and y are wrapped into [180, 540), z is never wrapped; everything else is unchanged |
| MeshLegacy.Mesh.AbsPosition | src/mesh/mesh_translate.rs:48-52 | x, y and z of the position are set and its w is kept; everything else is unchanged |
| MeshLegacy.Mesh.RelPosition | src/mesh/mesh_translate.rs:57-61 | the deltas are added to x, y and z of the position and its w is kept; everything else is unchanged |
| MeshLegacy.Mesh.IterAllPolygons | src/mesh/mesh_iterate.rs:14-24 | a fresh iterator over the vertices, normals and all polygons |
| MeshLegacy.Mesh.IterVisiblePolygons | src/mesh/mesh_iterate.rs:29-39 | a fresh iterator over the vertices, normals and visible polygons only |
| MeshComponents.CubeTrianglesShape | src/mesh/static_mesh.rs:44-55 | the twelve triangles `load_cube` pushes index below 8 and are, in order, the vertex indices of the twelve cube polygons of src/mesh/mesh.rs |
| MeshComponents.StaticMesh.constructor | src/mesh/static_mesh.rs:18-25 | `StaticMesh::default` has no vertices and no triangles |
| MeshComponents.StaticMesh.LoadCube | src/mesh/static_mesh.rs:30-57 | the eight corners are appended to the vertices and the twelve triangles to the triangles, without offsetting their indices |
| MeshComponents.AppendedCubeMisindexed | src/mesh/static_mesh.rs:44-55 | the appended triangles are always in range, but in a mesh already holding eight vertices they name only old vertices; only into an empty mesh do they address the cube's corners |
| MeshComponents.DynamicMesh.constructor | src/mesh/dynamic_mesh.rs:36-45 | `DynamicMesh::default` has all four lists empty |
| MeshComponents.DynamicMesh.New | src/mesh/dynamic_mesh.rs:48-56 | the vertices and triangles are copied from the static mesh, with no normals and no visible polygons |
| MeshComponents.YieldedPairs | src/mesh/dynamic_mesh.rs:65-91 | with every index in range the iteration yields as many polygons as the shorter of triangles and normals, the k-th being triangle k's vertices with normal k |
| MeshComponents.YieldedFails | src/mesh/dynamic_mesh.rs:65-91 | the iteration panics exactly when a triangle with an out-of-range index is reached before either list runs out |
| MeshComponents.PolyIterator.constructor | src/mesh/dynamic_mesh.rs:20-25 | the iterator starts with the vertices and all triangles and normals |
| MeshComponents.PolyIterator.Next | src/mesh/dynamic_mesh.rs:65-91 | `None` with nothing consumed when the triangles are gone; the triangle is consumed even when the normals are gone; otherwise both are consumed and the triangle's vertices come back with the normal, or a panic on a bad index |
| MeshComponents.YieldedStep | src/mesh/dynamic_mesh.rs:72-86 | a `next` that yields gives the head of the whole iteration, and the rest of the iteration is what the iterator still gives |

## Left out

- `project_to_ndc_space` (src/pipeline.rs:11-29): a float perspective division through the projection matrix, outside the modelled screen-space pipeline; `get_polygons_to_draw` takes already projected polygons.
- `EdgeTable::iter`/`iter_between` (src/rasterizer.rs) and `get_data` (src/buffer.rs): plain accessors; the model reads the underlying sequence directly.
- Floating point: f32/f64 rounding, NaN and infinities are not modelled (values are exact reals). `Point.FromHomogenous` returns `None` for a zero w and the screen-space stages report `ok = false`; the members listed next instead exclude a zero divisor by their `requires`.
- Divided: modelled over real elements with `requires s != 0.0`; for the integer element types of src/geometry/matrix/mat.rs:49-60 the source's `/` truncates toward zero and panics on a zero divisor, and for floats a zero divisor gives non-finite values; neither is captured.
- DivAssign: as for `Divided`, real elements and `requires s != 0.0`; integer truncation, the integer zero-divisor panic and float non-finite values are not captured.
- DivScalar: `Vector.DivScalar` and `Point.DivScalar` are modelled over reals with `requires s != 0.0`; integer truncation, the integer zero-divisor panic and float non-finite values are not captured.
- FromHomogenous: over reals only; for integer elements the source truncates each quotient, so the "coordinate times w is the original" contract does not hold there, and a zero w panics; for f64 a zero w gives non-finite coordinates rather than the model's `None`.
- Div: `Primitives.Div` requires a non-zero f32 divisor; the source's `/` by zero gives non-finite components.
- ScaleRoundTrip: stated for a non-zero scalar only; dividing by zero gives non-finite components in the source.
- TransformedVertex: requires the transformed w to be non-zero; the source divides by it regardless and then holds non-finite coordinates.
- TransformMesh: requires `FiniteUnder`, a non-zero transformed w for every vertex; the source transforms meshes that break this too, leaving non-finite coordinates.
- Integer element types: the generic point, vector and matrix algebra (src/geometry/matrix/mat.rs:49-60 implements its element trait for i8…i64, u8…u64, isize and usize as well as the floats) is modelled over exact reals only; overflow of `+`, `-` and `*` and truncating division of those integer types are not modelled.
- Angle wrap loops: modelled over exact reals; the f32 behaviour for angles so large that adding 360 no longer changes them is not captured.
- Integer overflow of `i32` arithmetic beyond the explicit casts (differences and doubled gains in the line walks) is not modelled; the model's integers are unbounded there.
- Trigonometry, square roots and projection constants: rotation matrices, `normal_to`/`magnitude`, degree–radian conversion and perspective matrices are parameters of the operations that use them.
- `GraphicsWindow::new`/`resize`/`render`/`redraw` and `Frame::new`/`render`: presentation through the `pixels` and `winit` crates; the projection matrix they build is a parameter.
- `println!` timing and the winit event loop of src/main.rs: I/O and UI.
- OBJ file opening and reading: the loader takes the file's lines; parsing a float is a parameter.
- The camera (src/camera.rs) and the gradient code of src/geometry/line.rs are not part of this model.
- Edge ordering by float gradient comparisons (src/rasterizer.rs:237-255, src/mesh/polygonal.rs:81-88): the draw order is a `LineOrder` parameter covering every order the comparisons can select.
- `LineIter` is imported from the rasterizer module at src/mesh/polygonal.rs:7, but the src/rasterizer.rs of this revision declares no such type; the points of each edge are a `walk` parameter.
- The interpolated depth step `zstep` is an exact real; its float rounding is not modelled.
- `Polygonal::normal` in src/mesh/face_vertex/polygon.rs is `todo!()` and panics; it has no model.
- `BBox::default`/`new` in src/mesh/geometry/bounding_box.rs:69-92 do not compile as written (an undefined `target`, a by-value assignment); only `BoundingBox::new` and `BBox::bounds` are modelled.
- The src/mesh/geometry algebra files other than bounding_box.rs are an f64 copy of src/geometry; their matrix product is `todo!()`.
- The `impl Mesh` blocks of src/mesh/mesh_transform.rs and src/mesh/mesh_translate.rs use `position` and `orientation` fields that the `Mesh` struct of src/mesh/mesh.rs:23-30 does not have (it holds a `physics` state instead); the model's mesh for those files takes its fields from the methods that use them.
- `DynamicMesh::new`'s `Vec` capacity: only the contents are modelled.
- Frame.Resize: stores the new width and height only; as in the source, the frame buffer is not reallocated.
- The `*Assign` operators on small Copy values (points, vectors, vertices, orientations): update in place is modelled as reassignment of the returned value.
- Macro-generated accessors, re-export modules and trivial glue files: no behaviour of their own.
- Concurrency: the renderer is single-threaded.
