// src/mesh/transform.rs: a builder that accumulates a 4×4 affine matrix by
// right-multiplying one elementary matrix per call, and two finalisers.
// Points are row vectors, so an operation added later is applied later.

module Transform {
  import opened Matrix
  import opened Vector
  import Pt = Point

  datatype Transform = Transform(m: Mat)
  datatype TransformBuilder = TransformBuilder(m: Mat)

  function IdentityRows(): Mat
  {
    [[1.0, 0.0, 0.0, 0.0],
     [0.0, 1.0, 0.0, 0.0],
     [0.0, 0.0, 1.0, 0.0],
     [0.0, 0.0, 0.0, 1.0]]
  }

  lemma IdentityRowsIsIdentity()
    ensures IdentityRows() == Identity(4)
  {
    assert forall i :: 0 <= i < 4 ==> IdentityRows()[i] == Identity(4)[i];
  }

  /** `TransformBuilder::new()`, also `Transform::builder()`: the identity. */
  function NewBuilder(): (b: TransformBuilder)
    ensures b.m == Identity(4)
  {
    IdentityRowsIsIdentity();
    TransformBuilder(IdentityRows())
  }

  /** `TransformBuilder::default()`: the identity as well. */
  function DefaultBuilder(): (b: TransformBuilder)
    ensures b == NewBuilder()
  {
    TransformBuilder(IdentityRows())
  }

  /** `Transform::default()`: the identity transformation. */
  function DefaultTransform(): (t: Transform)
    ensures t.m == Identity(4)
  {
    IdentityRowsIsIdentity();
    Transform(IdentityRows())
  }

  /** `From<[[f64; 4]; 4]> for Transform` keeps the given entries. */
  function FromArray(rows: Mat): (t: Transform)
    requires Shape(rows, 4, 4)
    ensures t.m == rows
  {
    Transform(rows)
  }

  /** `build_affine`: the accumulated matrix, unchanged. */
  function BuildAffine(b: TransformBuilder): (t: Transform)
    ensures t.m == b.m
  {
    Transform(b.m)
  }

  /** `build_projection`: a copy of the accumulated matrix with [2][3] = 1 and [3][3] = 0. */
  function BuildProjection(b: TransformBuilder): (t: Transform)
    requires Shape(b.m, 4, 4)
    ensures Shape(t.m, 4, 4)
    ensures t.m[2][3] == 1.0 && t.m[3][3] == 0.0
    ensures forall i, j :: 0 <= i < 4 && 0 <= j < 4 && !(j == 3 && (i == 2 || i == 3)) ==> t.m[i][j] == b.m[i][j]
  {
    var m := b.m[2 := b.m[2][3 := 1.0]];
    Transform(m[3 := m[3][3 := 0.0]])
  }

  /** Every builder operation: `TransformBuilder(self.0 * op)`; the receiver is a value
      and is left as it was. */
  function Then(b: TransformBuilder, op: Mat): (r: TransformBuilder)
    requires Shape(b.m, 4, 4) && Shape(op, 4, 4)
    ensures Shape(r.m, 4, 4)
  {
    TransformBuilder(Product(b.m, op, 4, 4, 4))
  }

  function TranslationMatrix(tx: real, ty: real, tz: real): Mat
  {
    [[1.0, 0.0, 0.0, 0.0],
     [0.0, 1.0, 0.0, 0.0],
     [0.0, 0.0, 1.0, 0.0],
     [tx, ty, tz, 1.0]]
  }

  function ScaleMatrix(sx: real, sy: real, sz: real): Mat
  {
    [[sx, 0.0, 0.0, 0.0],
     [0.0, sy, 0.0, 0.0],
     [0.0, 0.0, sz, 0.0],
     [0.0, 0.0, 0.0, 1.0]]
  }

  /** Entry (i, j) of a 4×4 product, written out as its four terms. */
  lemma ProductFourEntries(a: Mat, op: Mat)
    requires Shape(a, 4, 4) && Shape(op, 4, 4)
    ensures forall i, j :: 0 <= i < 4 && 0 <= j < 4 ==>
              Product(a, op, 4, 4, 4)[i][j]
              == a[i][0] * op[0][j] + a[i][1] * op[1][j] + a[i][2] * op[2][j] + a[i][3] * op[3][j]
  {
    forall i, j | 0 <= i < 4 && 0 <= j < 4
      ensures Product(a, op, 4, 4, 4)[i][j]
              == a[i][0] * op[0][j] + a[i][1] * op[1][j] + a[i][2] * op[2][j] + a[i][3] * op[3][j]
    {
      DotFour(a[i], Col(op, j));
    }
  }

  /** Right-multiplying by the translation matrix adds the w column, times each offset,
      to the x, y and z columns. */
  lemma TranslationEntries(m: Mat, tx: real, ty: real, tz: real)
    requires Shape(m, 4, 4)
    ensures forall i :: 0 <= i < 4 ==>
              Product(m, TranslationMatrix(tx, ty, tz), 4, 4, 4)[i]
              == [m[i][0] + m[i][3] * tx, m[i][1] + m[i][3] * ty, m[i][2] + m[i][3] * tz, m[i][3]]
  {
    var t := TranslationMatrix(tx, ty, tz);
    ProductFourEntries(m, t);
    forall i | 0 <= i < 4
      ensures Product(m, t, 4, 4, 4)[i] == [m[i][0] + m[i][3] * tx, m[i][1] + m[i][3] * ty, m[i][2] + m[i][3] * tz, m[i][3]]
    {
      var row := Product(m, t, 4, 4, 4)[i];
      assert row[0] == m[i][0] + m[i][3] * tx && row[1] == m[i][1] + m[i][3] * ty;
      assert row[2] == m[i][2] + m[i][3] * tz && row[3] == m[i][3];
    }
  }

  /** `translate(v)`: each of the x, y and z columns gains the w column times that
      axis's offset; the w column is kept. */
  function Translate(b: TransformBuilder, v: Vector): (r: TransformBuilder)
    requires Shape(b.m, 4, 4) && |v.c| == 3
    ensures Shape(r.m, 4, 4)
    ensures forall i :: 0 <= i < 4 ==>
              r.m[i][0] == b.m[i][0] + b.m[i][3] * v.c[0] && r.m[i][1] == b.m[i][1] + b.m[i][3] * v.c[1]
              && r.m[i][2] == b.m[i][2] + b.m[i][3] * v.c[2] && r.m[i][3] == b.m[i][3]
  {
    TranslationEntries(b.m, v.c[0], v.c[1], v.c[2]);
    Then(b, TranslationMatrix(v.c[0], v.c[1], v.c[2]))
  }

  /** `translate_x(t)`: the x column gains the w column times t; the rest is kept. */
  function TranslateX(b: TransformBuilder, t: real): (r: TransformBuilder)
    requires Shape(b.m, 4, 4)
    ensures Shape(r.m, 4, 4)
    ensures forall i :: 0 <= i < 4 ==>
              r.m[i][0] == b.m[i][0] + b.m[i][3] * t && r.m[i][1] == b.m[i][1]
              && r.m[i][2] == b.m[i][2] && r.m[i][3] == b.m[i][3]
  {
    var op := [[1.0, 0.0, 0.0, 0.0], [0.0, 1.0, 0.0, 0.0], [0.0, 0.0, 1.0, 0.0], [t, 0.0, 0.0, 1.0]];
    ProductFourEntries(b.m, op);
    Then(b, op)
  }

  /** `translate_y(t)`: the y column gains the w column times t; the rest is kept. */
  function TranslateY(b: TransformBuilder, t: real): (r: TransformBuilder)
    requires Shape(b.m, 4, 4)
    ensures Shape(r.m, 4, 4)
    ensures forall i :: 0 <= i < 4 ==>
              r.m[i][0] == b.m[i][0] && r.m[i][1] == b.m[i][1] + b.m[i][3] * t
              && r.m[i][2] == b.m[i][2] && r.m[i][3] == b.m[i][3]
  {
    var op := [[1.0, 0.0, 0.0, 0.0], [0.0, 1.0, 0.0, 0.0], [0.0, 0.0, 1.0, 0.0], [0.0, t, 0.0, 1.0]];
    ProductFourEntries(b.m, op);
    Then(b, op)
  }

  /** `translate_z(t)`: the z column gains the w column times t; the rest is kept. */
  function TranslateZ(b: TransformBuilder, t: real): (r: TransformBuilder)
    requires Shape(b.m, 4, 4)
    ensures Shape(r.m, 4, 4)
    ensures forall i :: 0 <= i < 4 ==>
              r.m[i][0] == b.m[i][0] && r.m[i][1] == b.m[i][1]
              && r.m[i][2] == b.m[i][2] + b.m[i][3] * t && r.m[i][3] == b.m[i][3]
  {
    var op := [[1.0, 0.0, 0.0, 0.0], [0.0, 1.0, 0.0, 0.0], [0.0, 0.0, 1.0, 0.0], [0.0, 0.0, t, 1.0]];
    ProductFourEntries(b.m, op);
    Then(b, op)
  }

  /** `scale(s)`: the x, y and z columns are multiplied by s; the w column is kept. */
  function Scale(b: TransformBuilder, s: real): (r: TransformBuilder)
    requires Shape(b.m, 4, 4)
    ensures Shape(r.m, 4, 4)
    ensures forall i :: 0 <= i < 4 ==>
              r.m[i][0] == b.m[i][0] * s && r.m[i][1] == b.m[i][1] * s
              && r.m[i][2] == b.m[i][2] * s && r.m[i][3] == b.m[i][3]
  {
    var op := [[s, 0.0, 0.0, 0.0], [0.0, s, 0.0, 0.0], [0.0, 0.0, s, 0.0], [0.0, 0.0, 0.0, 1.0]];
    ProductFourEntries(b.m, op);
    Then(b, op)
  }

  /** `scale_x(s)`: the x column is multiplied by s; the rest is kept. */
  function ScaleX(b: TransformBuilder, s: real): (r: TransformBuilder)
    requires Shape(b.m, 4, 4)
    ensures Shape(r.m, 4, 4)
    ensures forall i :: 0 <= i < 4 ==>
              r.m[i][0] == b.m[i][0] * s && r.m[i][1] == b.m[i][1]
              && r.m[i][2] == b.m[i][2] && r.m[i][3] == b.m[i][3]
  {
    var op := [[s, 0.0, 0.0, 0.0], [0.0, 1.0, 0.0, 0.0], [0.0, 0.0, 1.0, 0.0], [0.0, 0.0, 0.0, 1.0]];
    ProductFourEntries(b.m, op);
    Then(b, op)
  }

  /** `scale_y(s)`: the y column is multiplied by s; the rest is kept. */
  function ScaleY(b: TransformBuilder, s: real): (r: TransformBuilder)
    requires Shape(b.m, 4, 4)
    ensures Shape(r.m, 4, 4)
    ensures forall i :: 0 <= i < 4 ==>
              r.m[i][0] == b.m[i][0] && r.m[i][1] == b.m[i][1] * s
              && r.m[i][2] == b.m[i][2] && r.m[i][3] == b.m[i][3]
  {
    var op := [[1.0, 0.0, 0.0, 0.0], [0.0, s, 0.0, 0.0], [0.0, 0.0, 1.0, 0.0], [0.0, 0.0, 0.0, 1.0]];
    ProductFourEntries(b.m, op);
    Then(b, op)
  }

  /** `scale_z(s)`: the z column is multiplied by s; the rest is kept. */
  function ScaleZ(b: TransformBuilder, s: real): (r: TransformBuilder)
    requires Shape(b.m, 4, 4)
    ensures Shape(r.m, 4, 4)
    ensures forall i :: 0 <= i < 4 ==>
              r.m[i][0] == b.m[i][0] && r.m[i][1] == b.m[i][1]
              && r.m[i][2] == b.m[i][2] * s && r.m[i][3] == b.m[i][3]
  {
    var op := [[1.0, 0.0, 0.0, 0.0], [0.0, 1.0, 0.0, 0.0], [0.0, 0.0, s, 0.0], [0.0, 0.0, 0.0, 1.0]];
    ProductFourEntries(b.m, op);
    Then(b, op)
  }

  /** The single-axis translations use the `translate` matrix with the other two
      offsets zero, and the single-axis scalings put `s` on one diagonal entry only. */
  lemma AxisOperations(b: TransformBuilder, t: real)
    requires Shape(b.m, 4, 4)
    ensures TranslateX(b, t) == Translate(b, Vector([t, 0.0, 0.0]))
    ensures TranslateY(b, t) == Translate(b, Vector([0.0, t, 0.0]))
    ensures TranslateZ(b, t) == Translate(b, Vector([0.0, 0.0, t]))
    ensures Scale(b, t) == Then(b, ScaleMatrix(t, t, t))
    ensures ScaleX(b, t) == Then(b, ScaleMatrix(t, 1.0, 1.0))
    ensures ScaleY(b, t) == Then(b, ScaleMatrix(1.0, t, 1.0))
    ensures ScaleZ(b, t) == Then(b, ScaleMatrix(1.0, 1.0, t))
  {
  }

  /** From the identity, an operation's matrix is the operation's own matrix: `translate`
      gives the identity with bottom row (tx, ty, tz, 1), `scale` gives diag(s, s, s, 1). */
  lemma FromIdentity(v: Vector, s: real)
    requires |v.c| == 3
    ensures Translate(NewBuilder(), v).m == TranslationMatrix(v.c[0], v.c[1], v.c[2])
    ensures Scale(NewBuilder(), s).m == ScaleMatrix(s, s, s)
  {
    ProductIdentity(TranslationMatrix(v.c[0], v.c[1], v.c[2]), 4);
    ProductIdentity(ScaleMatrix(s, s, s), 4);
    assert Scale(NewBuilder(), s) == Then(NewBuilder(), ScaleMatrix(s, s, s));
  }

  /** Operations compose in call order: a point transformed by the built matrix is the
      point transformed by the earlier matrix and then by the operation's matrix. */
  lemma ThenAppliesLast(b: TransformBuilder, op: Mat, p: Pt.Point)
    requires Shape(b.m, 4, 4) && Shape(op, 4, 4) && |p.c| == 4
    ensures Pt.Times(p, BuildAffine(Then(b, op)).m, 4) == Pt.Times(Pt.Times(p, b.m, 4), op, 4)
  {
    Pt.TimesComposes(p, b.m, op, 4, 4);
  }

  /** Chaining two operations is the same as one operation with the product of their
      matrices, so a builder chain is associative. */
  lemma ThenThen(b: TransformBuilder, op1: Mat, op2: Mat)
    requires Shape(b.m, 4, 4) && Shape(op1, 4, 4) && Shape(op2, 4, 4)
    ensures Then(Then(b, op1), op2) == Then(b, Product(op1, op2, 4, 4, 4))
  {
    ProductAssociative(b.m, op1, op2, 4, 4, 4, 4);
  }

  /** A homogeneous point (x, y, z, 1) moved by `translate(t)` becomes (x+tx, y+ty, z+tz, 1). */
  lemma TranslationMoves(p: Pt.Point, v: Vector)
    requires |p.c| == 4 && p.c[3] == 1.0 && |v.c| == 3
    ensures Pt.Times(p, TranslationMatrix(v.c[0], v.c[1], v.c[2]), 4)
         == Pt.Point([p.c[0] + v.c[0], p.c[1] + v.c[1], p.c[2] + v.c[2], 1.0])
  {
    var t := TranslationMatrix(v.c[0], v.c[1], v.c[2]);
    var r := Pt.Times(p, t, 4);
    forall j | 0 <= j < 4 ensures r.c[j] == [p.c[0] + v.c[0], p.c[1] + v.c[1], p.c[2] + v.c[2], 1.0][j] {
      DotFour(p.c, Col(t, j));
    }
  }

  /** A homogeneous point moved by `scale(s)` has its x, y and z multiplied by s. */
  lemma ScalingScales(p: Pt.Point, s: real)
    requires |p.c| == 4
    ensures Pt.Times(p, ScaleMatrix(s, s, s), 4) == Pt.Point([p.c[0] * s, p.c[1] * s, p.c[2] * s, p.c[3]])
  {
    var t := ScaleMatrix(s, s, s);
    var r := Pt.Times(p, t, 4);
    forall j | 0 <= j < 4 ensures r.c[j] == [p.c[0] * s, p.c[1] * s, p.c[2] * s, p.c[3]][j] {
      DotFour(p.c, Col(t, j));
    }
  }
}
