// src/geometry/bounding_box.rs: a D-dimensional axis-aligned box given by a
// (min, max) pair per axis, and the inclusive containment test.

module BoundingBox {
  import opened Point

  /** `BBox<T, D>([(T, T); D])`. */
  datatype BBox = BBox(ranges: seq<(real, real)>)

  /** `BBox::default()`: every axis is (0, 0). */
  function Default(d: nat): (b: BBox)
    ensures |b.ranges| == d && forall k :: 0 <= k < d ==> b.ranges[k] == (0.0, 0.0)
  {
    BBox(seq(d, _ => (0.0, 0.0)))
  }

  /** `BBox::new(p1, p2)`: starts from the default box and, axis by axis, stores the
      smaller coordinate as min and the larger as max. */
  method New(p1: Point, p2: Point) returns (b: BBox)
    requires |p1.c| == |p2.c|
    ensures |b.ranges| == |p1.c|
    ensures forall k :: 0 <= k < |p1.c| ==>
      b.ranges[k] == (if p1.c[k] <= p2.c[k] then (p1.c[k], p2.c[k]) else (p2.c[k], p1.c[k]))
    ensures b == Corners(p1, p2)
  {
    var ranges := Default(|p1.c|).ranges;
    for k := 0 to |p1.c|
      invariant |ranges| == |p1.c|
      invariant forall i :: 0 <= i < k ==> ranges[i] == Corners(p1, p2).ranges[i]
    {
      var c1, c2 := p1.c[k], p2.c[k];
      if c1 <= c2 {
        ranges := ranges[k := (c1, c2)];
      } else {
        ranges := ranges[k := (c2, c1)];
      }
    }
    b := BBox(ranges);
  }

  /** The box `New` builds, as a value. */
  function Corners(p1: Point, p2: Point): BBox
    requires |p1.c| == |p2.c|
  {
    BBox(seq(|p1.c|, k requires 0 <= k < |p1.c| =>
      if p1.c[k] <= p2.c[k] then (p1.c[k], p2.c[k]) else (p2.c[k], p1.c[k])))
  }

  /** `Bounding::bounds`: the coordinates and the ranges are zipped, so the test runs
      over the shorter of the two, and each coordinate must lie in `min..=max`. */
  predicate Bounds(b: BBox, p: Point)
  {
    forall k :: 0 <= k < |p.c| && k < |b.ranges| ==> b.ranges[k].0 <= p.c[k] <= b.ranges[k].1
  }

  /** The box does not depend on the order of its two corners. */
  lemma CornersSymmetric(p1: Point, p2: Point)
    requires |p1.c| == |p2.c|
    ensures Corners(p1, p2) == Corners(p2, p1)
  {
    assert Corners(p1, p2).ranges == Corners(p2, p1).ranges;
  }

  /** Every range is ordered, and both corners lie in the box. */
  lemma CornersBounded(p1: Point, p2: Point)
    requires |p1.c| == |p2.c|
    ensures forall k :: 0 <= k < |p1.c| ==> Corners(p1, p2).ranges[k].0 <= Corners(p1, p2).ranges[k].1
    ensures Bounds(Corners(p1, p2), p1) && Bounds(Corners(p1, p2), p2)
  {
  }

  /** A point is bounded by the box of two corners iff each coordinate lies between the
      corresponding corner coordinates, in either order. */
  lemma BoundsCornersIff(p1: Point, p2: Point, p: Point)
    requires |p1.c| == |p2.c| == |p.c|
    ensures Bounds(Corners(p1, p2), p) <==>
      forall k :: 0 <= k < |p.c| ==>
        (p1.c[k] <= p.c[k] <= p2.c[k] || p2.c[k] <= p.c[k] <= p1.c[k])
  {
  }

  /** The default box bounds exactly the origin. */
  lemma DefaultBoundsOnlyOrigin(p: Point)
    ensures Bounds(Default(|p.c|), p) <==> forall k :: 0 <= k < |p.c| ==> p.c[k] == 0.0
  {
  }

  /** The unit test: a point inside is bounded; one outside on Y alone is not. */
  lemma Example()
    ensures Bounds(Corners(Point([0.44, 50.28, -88.62, -0.24]), Point([60.0, 100.0, -20.0, 0.0])),
                   Point([32.6, 50.29, -50.3, -0.1]))
    ensures !Bounds(Corners(Point([0.44, 50.28, -88.62, -0.24]), Point([60.0, 100.0, -20.0, 0.0])),
                    Point([32.6, 0.0, -50.3, -0.1]))
  {
    var b := Corners(Point([0.44, 50.28, -88.62, -0.24]), Point([60.0, 100.0, -20.0, 0.0]));
    assert b.ranges[1] == (50.28, 100.0);
  }
}
