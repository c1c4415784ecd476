// src/mesh/polygonal.rs: `Rasterize::rasterize` for any polygon. The three
// vertices are projected and rounded to integers, ordered by X, and the Y range
// is clamped to the screen. The points of the three edges are clamped and
// bucketed per scanline; each non-empty scanline is then filled from its first
// bound to its last, writing a pixel only where the interpolated depth is
// strictly nearer than the stored one.

module Polygonal {
  import opened Numeric
  import Pt = Point
  import B = Buffer
  import R = Rasterizer

  // ------------------------------------------------------------ vertices

  /** `coord.round() as i32`. */
  function RoundI32(r: real): (n: int)
    ensures I32_MIN <= n <= I32_MAX
  {
    Clamp(RoundHalfAway(r), I32_MIN, I32_MAX)
  }

  /** One coordinate of `Point::from_homogenous(vertex)`, rounded to i32. In f64 a zero
      w gives ±infinity, or NaN for 0/0, which `as i32` saturates or sends to 0. */
  function ProjectCoord(x: real, w: real): (n: int)
    ensures I32_MIN <= n <= I32_MAX
  {
    if w == 0.0 then (if x > 0.0 then I32_MAX else if x < 0.0 then I32_MIN else 0)
    else RoundI32(x / w)
  }

  /** A vertex after `from_homogenous` and the rounding map. */
  function RoundVertex(p: Pt.Point): (v: R.Pt3)
    requires |p.c| == 4
  {
    R.Pt3(ProjectCoord(p.c[0], p.c[3]), ProjectCoord(p.c[1], p.c[3]), ProjectCoord(p.c[2], p.c[3]))
  }

  /** A vertex already on the integer grid, with w = 1, is kept exactly. */
  lemma RoundVertexOfGrid(x: int, y: int, z: int)
    requires I32_MIN <= x <= I32_MAX && I32_MIN <= y <= I32_MAX && I32_MIN <= z <= I32_MAX
    ensures RoundVertex(Pt.Point([x as real, y as real, z as real, 1.0])) == R.Pt3(x, y, z)
  {
    assert (x as real / 1.0) == x as real;
    assert (y as real / 1.0) == y as real;
    assert (z as real / 1.0) == z as real;
  }

  /** The first swap: the first vertex with the least X, testing v1 with `<=`, moves to
      the front. */
  function LeastFirst(v: seq<R.Pt3>): (u: seq<R.Pt3>)
    requires |v| == 3
    ensures |u| == 3
  {
    if v[1].x <= v[0].x && v[1].x <= v[2].x then [v[1], v[0], v[2]]
    else if v[2].x < v[0].x && v[2].x < v[1].x then [v[2], v[1], v[0]]
    else v
  }

  /** The last swap: the two later vertices are exchanged when strictly out of order. */
  function LastTwoOrdered(u: seq<R.Pt3>): (w: seq<R.Pt3>)
    requires |u| == 3
    ensures |w| == 3
  {
    if u[2].x < u[1].x then [u[0], u[2], u[1]] else u
  }

  function OrderedByX(v: seq<R.Pt3>): (w: seq<R.Pt3>)
    requires |v| == 3
    ensures |w| == 3
  {
    LastTwoOrdered(LeastFirst(v))
  }

  /** Unlike the edge table's swaps, these leave the vertices in non-decreasing X order for
      every input, ties included. */
  lemma OrderedByXSorts(v: seq<R.Pt3>)
    requires |v| == 3
    ensures OrderedByX(v)[0].x <= OrderedByX(v)[1].x <= OrderedByX(v)[2].x
  {
    var u := LeastFirst(v);
    assert u[0].x <= u[1].x && u[0].x <= u[2].x;
  }

  /** The swaps only reorder the vertices. */
  lemma OrderedByXPermutes(v: seq<R.Pt3>)
    requires |v| == 3
    ensures multiset(OrderedByX(v)) == multiset(v)
  {
    LeastFirstPermutes(v);
    LastTwoOrderedPermutes(LeastFirst(v));
  }

  lemma LeastFirstPermutes(v: seq<R.Pt3>)
    requires |v| == 3
    ensures multiset(LeastFirst(v)) == multiset(v)
  {
    assert v == [v[0], v[1], v[2]];
    R.SwapFront(v[0], v[1], v[2]);
    R.SwapEnds(v[0], v[1], v[2]);
  }

  lemma LastTwoOrderedPermutes(u: seq<R.Pt3>)
    requires |u| == 3
    ensures multiset(LastTwoOrdered(u)) == multiset(u)
  {
    assert u == [u[0], u[1], u[2]];
    R.SwapBack(u[0], u[1], u[2]);
  }

  /** `verticies.swap(..)` on the local vector. */
  method SortVertices(v: seq<R.Pt3>) returns (w: seq<R.Pt3>)
    requires |v| == 3
    ensures w == OrderedByX(v)
  {
    w := v;
    if w[1].x <= w[0].x && w[1].x <= w[2].x {
      w := [w[1], w[0], w[2]];
    } else if w[2].x < w[0].x && w[2].x < w[1].x {
      w := [w[2], w[1], w[0]];
    }
    if w[2].x < w[1].x {
      w := [w[0], w[2], w[1]];
    }
  }

  // ------------------------------------------------------------ rows

  /** The least and greatest vertex Y, found as the source does. */
  function YMinMax(v: seq<R.Pt3>): (r: (int, int))
    requires |v| == 3
    ensures r.0 <= v[0].y && r.0 <= v[1].y && r.0 <= v[2].y
    ensures v[0].y <= r.1 && v[1].y <= r.1 && v[2].y <= r.1
    ensures (r.0 == v[0].y || r.0 == v[1].y || r.0 == v[2].y)
         && (r.1 == v[0].y || r.1 == v[1].y || r.1 == v[2].y)
  {
    var lo := if v[0].y < v[1].y then v[0].y else v[1].y;
    var hi := if v[0].y < v[1].y then v[1].y else v[0].y;
    if v[2].y < lo then (v[2].y, hi) else if v[2].y > hi then (lo, v[2].y) else (lo, hi)
  }

  /** `(ymin, ymax)`: the vertex Y range clamped to the rows of the screen. */
  function YRange(v: seq<R.Pt3>, sh: int): (r: (nat, nat))
    requires |v| == 3 && 0 <= sh
  {
    var mm := YMinMax(v);
    (Clamp(mm.0, 0, sh), Clamp(mm.1, 0, sh))
  }

  /** Both bounds lie on the screen, in order, and a triangle wholly on the screen keeps
      its exact vertex Y range. */
  lemma YRangeClamped(v: seq<R.Pt3>, sh: int)
    requires |v| == 3 && 0 <= sh
    ensures YRange(v, sh).0 <= YRange(v, sh).1 <= sh
    ensures 0 <= YMinMax(v).0 && YMinMax(v).1 <= sh ==> YRange(v, sh) == YMinMax(v)
  {
  }

  // ------------------------------------------------------------ bucketing

  /** `ScanlineBound`. */
  datatype Bound = Bound(x: nat, z: nat)

  /** The bound recorded for a walked point and the screen row it is recorded under:
      x clamped to [0, sw], y to [0, sh], z to [0, i32::MAX]. */
  function ClampPoint(p: R.Pt3, sw: int, sh: int): (r: (Bound, nat))
    requires 0 <= sw && 0 <= sh
    ensures r.0.x <= sw && r.1 <= sh && r.0.z <= I32_MAX
    ensures 0 <= p.x <= sw ==> r.0.x == p.x
    ensures 0 <= p.y <= sh ==> r.1 == p.y
    ensures 0 <= p.z <= I32_MAX ==> r.0.z == p.z
  {
    (Bound(Clamp(p.x, 0, sw), Clamp(p.z, 0, I32_MAX)), Clamp(p.y, 0, sh))
  }

  /** `vec![Vec::new(); n]`. */
  function EmptyRows(n: nat): (r: seq<seq<Bound>>)
    ensures |r| == n && forall i :: 0 <= i < n ==> r[i] == []
  {
    seq(n, _ => [])
  }

  /** The scanline lists after pushing each point, in order, into row `y − ymin`, or
      `None` where the subtraction underflows or the index is past the last row. */
  function Bucketed(rows: seq<seq<Bound>>, pts: seq<R.Pt3>, ymin: nat, sw: int, sh: int): (r: Option<seq<seq<Bound>>>)
    requires 0 <= sw && 0 <= sh
    ensures r.Some? ==> |r.value| == |rows|
    decreases |pts|
  {
    if |pts| == 0 then Some(rows)
    else
      match Bucketed(rows, pts[..|pts| - 1], ymin, sw, sh)
      case None => None
      case Some(prev) =>
        var c := ClampPoint(pts[|pts| - 1], sw, sh);
        if c.1 < ymin || c.1 - ymin >= |prev| then None
        else Some(prev[c.1 - ymin := prev[c.1 - ymin] + [c.0]])
  }

  /** A point's clamped row lies in the table of n rows from ymin. */
  predicate RowFits(p: R.Pt3, ymin: nat, n: nat, sw: int, sh: int)
    requires 0 <= sw && 0 <= sh
  {
    ymin <= ClampPoint(p, sw, sh).1 < ymin + n
  }

  /** Bucketing panics exactly when some point's clamped row is outside the table. */
  lemma {:induction false} BucketedSomeIff(rows: seq<seq<Bound>>, pts: seq<R.Pt3>, ymin: nat, sw: int, sh: int)
    requires 0 <= sw && 0 <= sh
    ensures Bucketed(rows, pts, ymin, sw, sh).Some?
        <==> forall k :: 0 <= k < |pts| ==> RowFits(pts[k], ymin, |rows|, sw, sh)
    decreases |pts|
  {
    if |pts| > 0 {
      var init := pts[..|pts| - 1];
      BucketedSomeIff(rows, init, ymin, sw, sh);
      assert forall k :: 0 <= k < |init| ==> init[k] == pts[k];
    }
  }

  /** Every bound in the lists lies on the screen: x in [0, sw], z in [0, i32::MAX]. */
  predicate OnScreen(rows: seq<seq<Bound>>, sw: int)
  {
    forall i, j :: 0 <= i < |rows| && 0 <= j < |rows[i]| ==> rows[i][j].x <= sw && rows[i][j].z <= I32_MAX
  }

  lemma {:induction false} BucketedOnScreen(rows: seq<seq<Bound>>, pts: seq<R.Pt3>, ymin: nat, sw: int, sh: int)
    requires 0 <= sw && 0 <= sh && OnScreen(rows, sw)
    requires Bucketed(rows, pts, ymin, sw, sh).Some?
    ensures OnScreen(Bucketed(rows, pts, ymin, sw, sh).value, sw)
    decreases |pts|
  {
    if |pts| > 0 {
      BucketedOnScreen(rows, pts[..|pts| - 1], ymin, sw, sh);
    }
  }

  // ------------------------------------------------------------ depth-tested fill

  /** The two buffers, with the dimensions their `Index` impls use. */
  datatype Screen = Screen(pw: nat, ph: nat, pixels: seq<Byte>, zw: nat, depth: seq<nat>)

  /** The depth test at one pixel: `if z < z_buffer[(x, y)] as f64` the colour is copied
      and the depth becomes `z.round() as usize`. `None` where an index panics. */
  function Plot(s: Screen, x: nat, y: nat, z: real, c: seq<Byte>): (r: Option<Screen>)
    requires |c| == 4
    ensures r.Some? ==> r.value.pw == s.pw && r.value.ph == s.ph && r.value.zw == s.zw
    ensures r.Some? ==> |r.value.pixels| == |s.pixels| && |r.value.depth| == |s.depth|
  {
    var d := B.DepthOffset(s.zw, x, y);
    if d >= |s.depth| then None
    else if !(z < s.depth[d] as real) then Some(s)
    else
      var o := B.PixelOffset(s.pw, s.ph, x, y);
      if o.None? || o.value + 4 > |s.pixels| then None
      else Some(s.(pixels := B.Replace4(s.pixels, o.value, c), depth := s.depth[d := RoundUsize(z)]))
  }

  /** A pixel is tested against the depth stored at its slot; `rasterize` panics only
      when that slot, or the pixel's bytes after a passing test, lie outside the buffers.
      A failing test changes nothing; a passing one copies the colour and stores the
      rounded depth. */
  lemma PlotRule(s: Screen, x: nat, y: nat, z: real, c: seq<Byte>)
    requires |c| == 4
    ensures var r := Plot(s, x, y, z, c);
            var d := B.DepthOffset(s.zw, x, y);
            var o := B.PixelOffset(s.pw, s.ph, x, y);
            (r.Some? <==> d < |s.depth| && (z < s.depth[d] as real ==> o.Some? && o.value + 4 <= |s.pixels|))
            && (r.Some? && !(z < s.depth[d] as real) ==> r.value == s)
            && (r.Some? && z < s.depth[d] as real ==>
                  r.value.depth == s.depth[d := RoundUsize(z)] && r.value.pixels == B.Replace4(s.pixels, o.value, c))
  {
  }

  /** t can follow s when drawing in colour c: the same dimensions, no stored depth grew,
      and every byte is either the old one or the colour's byte for its channel. */
  predicate Follows(s: Screen, t: Screen, c: seq<Byte>)
    requires |c| == 4
  {
    t.pw == s.pw && t.ph == s.ph && t.zw == s.zw
    && |t.pixels| == |s.pixels| && |t.depth| == |s.depth|
    && (forall i :: 0 <= i < |s.depth| ==> t.depth[i] <= s.depth[i])
    && (forall i :: 0 <= i < |s.pixels| ==> t.pixels[i] == s.pixels[i] || t.pixels[i] == c[i % 4])
  }

  lemma FollowsTransitive(s: Screen, t: Screen, u: Screen, c: seq<Byte>)
    requires |c| == 4 && Follows(s, t, c) && Follows(t, u, c)
    ensures Follows(s, u, c)
  {
  }

  lemma ChannelOfOffset(o: nat, i: nat)
    requires o % 4 == 0 && o <= i < o + 4
    ensures i % 4 == i - o
  {
    B.DivModUnique(o / 4, i - o, 4);
    assert i == (o / 4) * 4 + (i - o);
  }

  /** One depth test never pushes a pixel farther away and writes only the colour. */
  lemma PlotFollows(s: Screen, x: nat, y: nat, z: real, c: seq<Byte>)
    requires |c| == 4 && Plot(s, x, y, z, c).Some?
    ensures Follows(s, Plot(s, x, y, z, c).value, c)
  {
    var d := B.DepthOffset(s.zw, x, y);
    if z < s.depth[d] as real {
      var o := B.PixelOffset(s.pw, s.ph, x, y).value;
      assert o % 4 == 0;
      var t := Plot(s, x, y, z, c).value;
      forall i | 0 <= i < |s.pixels| ensures t.pixels[i] == s.pixels[i] || t.pixels[i] == c[i % 4] {
        if o <= i < o + 4 {
          ChannelOfOffset(o, i);
        }
      }
      assert RoundUsize(z) as real <= z + 0.5 || z < 0.0;
    }
  }

  /** The depth carried to the k-th pixel of a span: `z` starts at z1 and `z += zstep`
      runs after every pixel. */
  function DepthAt(z1: real, zstep: real, k: nat): real
  {
    if k == 0 then z1 else DepthAt(z1, zstep, k - 1) + zstep
  }

  /** In exact arithmetic the accumulated depth is z1 + k·zstep. */
  lemma {:induction false} DepthAtClosedForm(z1: real, zstep: real, k: nat)
    ensures DepthAt(z1, zstep, k) == z1 + k as real * zstep
  {
    if k > 0 {
      DepthAtClosedForm(z1, zstep, k - 1);
      assert k as real * zstep == (k - 1) as real * zstep + zstep;
    }
  }

  /** The first n pixels of the span from x1 along row y. */
  function Span(s: Screen, y: nat, x1: nat, z1: real, zstep: real, n: nat, c: seq<Byte>): (r: Option<Screen>)
    requires |c| == 4
    ensures r.Some? ==> r.value.pw == s.pw && r.value.ph == s.ph && r.value.zw == s.zw
    ensures r.Some? ==> |r.value.pixels| == |s.pixels| && |r.value.depth| == |s.depth|
    decreases n
  {
    if n == 0 then Some(s)
    else
      match Span(s, y, x1, z1, zstep, n - 1, c)
      case None => None
      case Some(t) => Plot(t, x1 + n - 1, y, DepthAt(z1, zstep, n - 1), c)
  }

  lemma {:induction false} SpanFollows(s: Screen, y: nat, x1: nat, z1: real, zstep: real, n: nat, c: seq<Byte>)
    requires |c| == 4 && Span(s, y, x1, z1, zstep, n, c).Some?
    ensures Follows(s, Span(s, y, x1, z1, zstep, n, c).value, c)
    decreases n
  {
    if n == 0 {
      assert Span(s, y, x1, z1, zstep, n, c).value == s;
    } else {
      var t := Span(s, y, x1, z1, zstep, n - 1, c).value;
      SpanFollows(s, y, x1, z1, zstep, n - 1, c);
      PlotFollows(t, x1 + n - 1, y, DepthAt(z1, zstep, n - 1), c);
      FollowsTransitive(s, t, Span(s, y, x1, z1, zstep, n, c).value, c);
    }
  }

  /** A span of row y leaves every depth slot outside that row's slots x1..x1+n−1 as it
      was. */
  lemma {:induction false} SpanStaysInRow(s: Screen, y: nat, x1: nat, z1: real, zstep: real, n: nat, c: seq<Byte>, i: nat)
    requires |c| == 4 && Span(s, y, x1, z1, zstep, n, c).Some? && i < |s.depth|
    requires forall x :: x1 <= x < x1 + n ==> i != B.DepthOffset(s.zw, x, y)
    ensures Span(s, y, x1, z1, zstep, n, c).value.depth[i] == s.depth[i]
    decreases n
  {
    if n > 0 {
      SpanStaysInRow(s, y, x1, z1, zstep, n - 1, c, i);
      var t := Span(s, y, x1, z1, zstep, n - 1, c).value;
      assert i != B.DepthOffset(s.zw, x1 + (n - 1), y);
      SpanFollows(s, y, x1, z1, zstep, n - 1, c);
    }
  }

  /** The visited slots of one row are distinct, so each pixel of a span is tested
      against the depth stored before the span began. */
  lemma {:induction false} SpanTestsEachPixel(s: Screen, y: nat, x1: nat, z1: real, zstep: real, n: nat, c: seq<Byte>, k: nat)
    requires |c| == 4 && Span(s, y, x1, z1, zstep, n, c).Some? && k < n
    ensures var d := B.DepthOffset(s.zw, x1 + k, y);
            d < |s.depth|
            && Span(s, y, x1, z1, zstep, n, c).value.depth[d]
               == if DepthAt(z1, zstep, k) < s.depth[d] as real then RoundUsize(DepthAt(z1, zstep, k)) else s.depth[d]
    decreases n
  {
    var d := B.DepthOffset(s.zw, x1 + k, y);
    var t := Span(s, y, x1, z1, zstep, n - 1, c).value;
    SpanFollows(s, y, x1, z1, zstep, n - 1, c);
    if k < n - 1 {
      SpanTestsEachPixel(s, y, x1, z1, zstep, n - 1, c, k);
      assert d != B.DepthOffset(t.zw, x1 + n - 1, y);
    } else {
      forall x | x1 <= x < x1 + (n - 1) ensures d != B.DepthOffset(s.zw, x, y) {
      }
      if d < |s.depth| {
        SpanStaysInRow(s, y, x1, z1, zstep, n - 1, c, d);
      }
    }
  }

  /** `zstep`: the depth change per column. When x1 = x2 the span is one pixel and the
      f64 quotient (infinite or NaN) is added only after that pixel, so any value serves. */
  function ZStep(b1: Bound, b2: Bound): real
  {
    if b2.x > b1.x then (b2.z as real - b1.z as real) / (b2.x - b1.x) as real else 0.0
  }

  /** One scanline: an empty list is skipped; otherwise the span from the first bound's x
      to the last bound's x, inclusive, is filled. `x2 − x1` is a usize subtraction, so a
      last bound left of the first panics. */
  function FillRow(s: Screen, y: nat, row: seq<Bound>, c: seq<Byte>): (r: Option<Screen>)
    requires |c| == 4
    ensures |row| == 0 ==> r == Some(s)
    ensures |row| > 0 && row[|row| - 1].x < row[0].x ==> r.None?
  {
    if |row| == 0 then Some(s)
    else
      var b1, b2 := row[0], row[|row| - 1];
      if b2.x < b1.x then None
      else Span(s, y, b1.x, b1.z as real, ZStep(b1, b2), b2.x - b1.x + 1, c)
  }

  lemma FillRowFollows(s: Screen, y: nat, row: seq<Bound>, c: seq<Byte>)
    requires |c| == 4 && FillRow(s, y, row, c).Some?
    ensures Follows(s, FillRow(s, y, row, c).value, c)
  {
    if |row| > 0 {
      var b1, b2 := row[0], row[|row| - 1];
      SpanFollows(s, y, b1.x, b1.z as real, ZStep(b1, b2), b2.x - b1.x + 1, c);
    }
  }

  /** The scanlines 0..n−1 filled in turn; list k is row k + ymin. */
  function FillRows(s: Screen, rows: seq<seq<Bound>>, ymin: nat, n: nat, c: seq<Byte>): (r: Option<Screen>)
    requires |c| == 4 && n <= |rows|
    decreases n
  {
    if n == 0 then Some(s)
    else
      match FillRows(s, rows, ymin, n - 1, c)
      case None => None
      case Some(t) => FillRow(t, n - 1 + ymin, rows[n - 1], c)
  }

  lemma {:induction false} FillRowsFollows(s: Screen, rows: seq<seq<Bound>>, ymin: nat, n: nat, c: seq<Byte>)
    requires |c| == 4 && n <= |rows| && FillRows(s, rows, ymin, n, c).Some?
    ensures Follows(s, FillRows(s, rows, ymin, n, c).value, c)
    decreases n
  {
    if n == 0 {
      assert FillRows(s, rows, ymin, n, c).value == s;
    } else {
      var t := FillRows(s, rows, ymin, n - 1, c).value;
      FillRowsFollows(s, rows, ymin, n - 1, c);
      FillRowFollows(t, n - 1 + ymin, rows[n - 1], c);
      FollowsTransitive(s, t, FillRows(s, rows, ymin, n, c).value, c);
    }
  }

  // ------------------------------------------------------------ the whole call

  /** The vertices after projection, rounding and the X swaps. */
  function Vertices(poly: seq<Pt.Point>): (v: seq<R.Pt3>)
    requires |poly| == 3 && forall i :: 0 <= i < 3 ==> |poly[i].c| == 4
    ensures |v| == 3
  {
    OrderedByX([RoundVertex(poly[0]), RoundVertex(poly[1]), RoundVertex(poly[2])])
  }

  /** Every point the three edges yield, in draw order. */
  function EdgeWalk(l: seq<(R.Pt3, R.Pt3)>, walk: (R.Pt3, R.Pt3) -> seq<R.Pt3>): seq<R.Pt3>
    requires |l| == 3
  {
    walk(l[0].0, l[0].1) + walk(l[1].0, l[1].1) + walk(l[2].0, l[2].1)
  }

  /** The scanline lists and the clamped least row, or `None` where a point's row misses
      the table. */
  function ScanTable(poly: seq<Pt.Point>, order: R.LineOrder, walk: (R.Pt3, R.Pt3) -> seq<R.Pt3>,
                     sw: int, sh: int): (r: Option<(seq<seq<Bound>>, nat)>)
    requires |poly| == 3 && forall i :: 0 <= i < 3 ==> |poly[i].c| == 4
    requires 0 <= sw && 0 <= sh
  {
    var v := Vertices(poly);
    var yr := YRange(v, sh);
    var rows := Bucketed(EmptyRows(yr.1 - yr.0 + 1), EdgeWalk(R.Lines(v, order), walk), yr.0, sw, sh);
    if rows.None? then None else Some((rows.value, yr.0))
  }

  /** The buffers after `rasterize`, or `None` where it panics: `width − 1` or
      `height − 1` underflows, a clamp gets a negative bound after the `as i32` wrap (the
      Y range is clamped for every triangle, an X only for a walked point), a point's row
      misses the table, or a span runs backwards or off a buffer. */
  function Rasterized(poly: seq<Pt.Point>, order: R.LineOrder, walk: (R.Pt3, R.Pt3) -> seq<R.Pt3>,
                      s: Screen, c: seq<Byte>): (r: Option<Screen>)
    requires |poly| == 3 && forall i :: 0 <= i < 3 ==> |poly[i].c| == 4
    requires |c| == 4
  {
    if s.pw == 0 || s.ph == 0 then None
    else
      var sw, sh := WrapI32(s.pw - 1), WrapI32(s.ph - 1);
      if sh < 0 then None
      else if sw < 0 then (if |EdgeWalk(R.Lines(Vertices(poly), order), walk)| == 0 then Some(s) else None)
      else
        var t := ScanTable(poly, order, walk, sw, sh);
        if t.None? then None
        else FillRows(s, t.value.0, t.value.1, |t.value.0|, c)
  }

  /** An empty screen, or one whose last row does not fit in an i32, fails; one whose
      last column does not fit fails as soon as an edge yields a point, and is left as it
      was otherwise. */
  lemma RasterizedGuards(poly: seq<Pt.Point>, order: R.LineOrder, walk: (R.Pt3, R.Pt3) -> seq<R.Pt3>,
                         s: Screen, c: seq<Byte>)
    requires |poly| == 3 && forall i :: 0 <= i < 3 ==> |poly[i].c| == 4
    requires |c| == 4
    ensures s.pw == 0 || s.ph == 0 ==> Rasterized(poly, order, walk, s, c).None?
    ensures s.pw != 0 && WrapI32(s.ph - 1) < 0 ==> Rasterized(poly, order, walk, s, c).None?
    ensures s.pw != 0 && s.ph != 0 && 0 <= WrapI32(s.ph - 1) && WrapI32(s.pw - 1) < 0 ==>
              Rasterized(poly, order, walk, s, c)
              == if |EdgeWalk(R.Lines(Vertices(poly), order), walk)| == 0 then Some(s) else None
  {
  }

  /** Past the screen-size guards, the call fails with the scan table or fills its rows. */
  lemma RasterizedFillsTable(poly: seq<Pt.Point>, order: R.LineOrder, walk: (R.Pt3, R.Pt3) -> seq<R.Pt3>,
                             s: Screen, c: seq<Byte>, t: Option<(seq<seq<Bound>>, nat)>)
    requires |poly| == 3 && forall i :: 0 <= i < 3 ==> |poly[i].c| == 4
    requires |c| == 4 && s.pw != 0 && s.ph != 0
    requires 0 <= WrapI32(s.pw - 1) && 0 <= WrapI32(s.ph - 1)
    requires t == ScanTable(poly, order, walk, WrapI32(s.pw - 1), WrapI32(s.ph - 1))
    ensures Rasterized(poly, order, walk, s, c) ==
              if t.None? then None else FillRows(s, t.value.0, t.value.1, |t.value.0|, c)
  {
  }

  /** However it ends, a completed `rasterize` never pushes a stored depth farther away
      and changes pixel bytes only to the colour's. */
  lemma RasterizedFollows(poly: seq<Pt.Point>, order: R.LineOrder, walk: (R.Pt3, R.Pt3) -> seq<R.Pt3>,
                          s: Screen, c: seq<Byte>)
    requires |poly| == 3 && forall i :: 0 <= i < 3 ==> |poly[i].c| == 4
    requires |c| == 4 && Rasterized(poly, order, walk, s, c).Some?
    ensures Follows(s, Rasterized(poly, order, walk, s, c).value, c)
  {
    var sw, sh := WrapI32(s.pw - 1), WrapI32(s.ph - 1);
    if sw < 0 {
      assert Rasterized(poly, order, walk, s, c) == Some(s);
    } else {
      var t := ScanTable(poly, order, walk, sw, sh).value;
      FillRowsFollows(s, t.0, t.1, |t.0|, c);
    }
  }

  /** Every recorded bound is on the screen before any span is filled, and the table has
      one list per row from the clamped least to the clamped greatest vertex Y. */
  lemma ScanTableOnScreen(poly: seq<Pt.Point>, order: R.LineOrder, walk: (R.Pt3, R.Pt3) -> seq<R.Pt3>,
                          sw: int, sh: int)
    requires |poly| == 3 && forall i :: 0 <= i < 3 ==> |poly[i].c| == 4
    requires 0 <= sw && 0 <= sh
    ensures var t := ScanTable(poly, order, walk, sw, sh);
            var yr := YRange(Vertices(poly), sh);
            t.Some? ==> OnScreen(t.value.0, sw) && t.value.1 == yr.0 && |t.value.0| == yr.1 - yr.0 + 1
  {
    var v := Vertices(poly);
    var yr := YRange(v, sh);
    YRangeClamped(v, sh);
    var empty := EmptyRows(yr.1 - yr.0 + 1);
    var pts := EdgeWalk(R.Lines(v, order), walk);
    var rows := Bucketed(empty, pts, yr.0, sw, sh);
    assert ScanTable(poly, order, walk, sw, sh) == if rows.None? then None else Some((rows.value, yr.0));
    if rows.Some? {
      BucketedOnScreen(empty, pts, yr.0, sw, sh);
    }
  }

  // ------------------------------------------------------------ in place

  /** The two buffers as one value. */
  function ScreenOf(pixels: B.PixelBuffer, zbuf: B.ZBuffer): Screen
    reads pixels, pixels.data, zbuf, zbuf.data
  {
    Screen(pixels.width, pixels.height, pixels.data[..], zbuf.width, zbuf.data[..])
  }

  /** The body of the span loop at one pixel. */
  method PlotAt(pixels: B.PixelBuffer, zbuf: B.ZBuffer, x: nat, y: nat, z: real, c: B.Color) returns (ok: bool)
    requires |c.bytes| == 4
    modifies pixels.data, zbuf.data
    ensures var r := Plot(old(ScreenOf(pixels, zbuf)), x, y, z, c.bytes);
            (ok <==> r.Some?) && (ok ==> ScreenOf(pixels, zbuf) == r.value)
  {
    var stored := zbuf.At(x, y);
    if stored.None? {
      return false;
    }
    if z < stored.value as real {
      var written := pixels.Write(x, y, c);
      if !written {
        return false;
      }
      var _ := zbuf.Write(x, y, RoundUsize(z));
    }
    ok := true;
  }

  /** `(x1..=x2).for_each(..)` on one scanline, z growing by `zstep`. */
  method FillSpan(pixels: B.PixelBuffer, zbuf: B.ZBuffer, y: nat, x1: nat, z1: real, zstep: real, n: nat, c: B.Color)
      returns (ok: bool)
    requires |c.bytes| == 4
    modifies pixels.data, zbuf.data
    ensures var r := Span(old(ScreenOf(pixels, zbuf)), y, x1, z1, zstep, n, c.bytes);
            (ok <==> r.Some?) && (ok ==> ScreenOf(pixels, zbuf) == r.value)
  {
    ghost var s0 := ScreenOf(pixels, zbuf);
    var z := z1;
    for k := 0 to n
      invariant z == DepthAt(z1, zstep, k)
      invariant Span(s0, y, x1, z1, zstep, k, c.bytes) == Some(ScreenOf(pixels, zbuf))
    {
      ghost var before := ScreenOf(pixels, zbuf);
      var plotted := PlotAt(pixels, zbuf, x1 + k, y, z, c);
      assert Span(s0, y, x1, z1, zstep, k + 1, c.bytes) == Plot(before, x1 + k, y, z, c.bytes);
      if !plotted {
        SpanNoneStaysNone(s0, y, x1, z1, zstep, k + 1, n, c.bytes);
        return false;
      }
      z := z + zstep;
    }
    ok := true;
  }

  /** A span that panics at pixel m panics however long it is. */
  lemma {:induction false} SpanNoneStaysNone(s: Screen, y: nat, x1: nat, z1: real, zstep: real, m: nat, n: nat, c: seq<Byte>)
    requires |c| == 4 && m <= n && Span(s, y, x1, z1, zstep, m, c).None?
    ensures Span(s, y, x1, z1, zstep, n, c).None?
    decreases n - m
  {
    if m < n {
      SpanNoneStaysNone(s, y, x1, z1, zstep, m + 1, n, c);
    }
  }

  /** The scanline loop body for one list. */
  method FillScanline(pixels: B.PixelBuffer, zbuf: B.ZBuffer, y: nat, row: seq<Bound>, c: B.Color)
      returns (ok: bool)
    requires |c.bytes| == 4
    modifies pixels.data, zbuf.data
    ensures var r := FillRow(old(ScreenOf(pixels, zbuf)), y, row, c.bytes);
            (ok <==> r.Some?) && (ok ==> ScreenOf(pixels, zbuf) == r.value)
  {
    if |row| == 0 {
      return true;
    }
    var b1, b2 := row[0], row[|row| - 1];
    if b2.x < b1.x {
      return false;
    }
    ok := FillSpan(pixels, zbuf, y, b1.x, b1.z as real, ZStep(b1, b2), b2.x - b1.x + 1, c);
  }

  lemma {:induction false} FillRowsNoneStaysNone(s: Screen, rows: seq<seq<Bound>>, ymin: nat, m: nat, n: nat, c: seq<Byte>)
    requires |c| == 4 && m <= n <= |rows| && FillRows(s, rows, ymin, m, c).None?
    ensures FillRows(s, rows, ymin, n, c).None?
    decreases n - m
  {
    if m < n {
      FillRowsNoneStaysNone(s, rows, ymin, m + 1, n, c);
    }
  }

  lemma {:induction false} BucketedNoneStaysNone(rows: seq<seq<Bound>>, pts: seq<R.Pt3>, m: nat, ymin: nat, sw: int, sh: int)
    requires 0 <= sw && 0 <= sh && m <= |pts| && Bucketed(rows, pts[..m], ymin, sw, sh).None?
    ensures Bucketed(rows, pts, ymin, sw, sh).None?
    decreases |pts| - m
  {
    if m < |pts| {
      assert pts[..m + 1][..m] == pts[..m];
      BucketedNoneStaysNone(rows, pts, m + 1, ymin, sw, sh);
    } else {
      assert pts[..m] == pts;
    }
  }

  /** `scanlines[y - ymin].push(ScanlineBound { x, z })` for the next walked point. */
  method PushBound(scanlines: array<seq<Bound>>, p: R.Pt3, ymin: nat, sw: int, sh: int) returns (ok: bool)
    requires 0 <= sw && 0 <= sh
    modifies scanlines
    ensures var cp := ClampPoint(p, sw, sh);
            (ok <==> ymin <= cp.1 && cp.1 - ymin < scanlines.Length)
            && (ok ==> scanlines[..] == old(scanlines[..])[cp.1 - ymin := old(scanlines[..])[cp.1 - ymin] + [cp.0]])
  {
    var cp := ClampPoint(p, sw, sh);
    if cp.1 < ymin || cp.1 - ymin >= scanlines.Length {
      return false;
    }
    scanlines[cp.1 - ymin] := scanlines[cp.1 - ymin] + [cp.0];
    ok := true;
  }

  /** The flat-mapped walk of the three edges, bucketed into the scanline lists. */
  method BucketPoints(pts: seq<R.Pt3>, ymin: nat, n: nat, sw: int, sh: int) returns (rows: Option<seq<seq<Bound>>>)
    requires 0 <= sw && 0 <= sh
    ensures rows == Bucketed(EmptyRows(n), pts, ymin, sw, sh)
  {
    var scanlines := new seq<Bound>[n](_ => []);
    assert scanlines[..] == EmptyRows(n);
    for k := 0 to |pts|
      invariant Bucketed(EmptyRows(n), pts[..k], ymin, sw, sh) == Some(scanlines[..])
    {
      var pushed := PushBound(scanlines, pts[k], ymin, sw, sh);
      assert pts[..k + 1][..k] == pts[..k];
      if !pushed {
        BucketedNoneStaysNone(EmptyRows(n), pts, k + 1, ymin, sw, sh);
        return None;
      }
    }
    assert pts[..|pts|] == pts;
    rows := Some(scanlines[..]);
  }

  /** The vertex preparation and bucketing half of `rasterize`. */
  method BuildTable(poly: seq<Pt.Point>, order: R.LineOrder, walk: (R.Pt3, R.Pt3) -> seq<R.Pt3>,
                    sw: int, sh: int) returns (t: Option<(seq<seq<Bound>>, nat)>)
    requires |poly| == 3 && forall i :: 0 <= i < 3 ==> |poly[i].c| == 4
    requires 0 <= sw && 0 <= sh
    ensures t == ScanTable(poly, order, walk, sw, sh)
  {
    var v := SortVertices([RoundVertex(poly[0]), RoundVertex(poly[1]), RoundVertex(poly[2])]);
    var yr := YRange(v, sh);
    YRangeClamped(v, sh);
    var ymin, ymax := yr.0, yr.1;
    var pts := EdgeWalk(R.Lines(v, order), walk);
    var rows := BucketPoints(pts, ymin, ymax - ymin + 1, sw, sh);
    if rows.None? {
      return None;
    }
    t := Some((rows.value, ymin));
  }

  /** `scanlines.into_iter().enumerate().for_each(..)`. */
  method FillAll(pixels: B.PixelBuffer, zbuf: B.ZBuffer, table: seq<seq<Bound>>, ymin: nat, c: B.Color)
      returns (ok: bool)
    requires |c.bytes| == 4
    modifies pixels.data, zbuf.data
    ensures var r := FillRows(old(ScreenOf(pixels, zbuf)), table, ymin, |table|, c.bytes);
            (ok <==> r.Some?) && (ok ==> ScreenOf(pixels, zbuf) == r.value)
  {
    ghost var s0 := ScreenOf(pixels, zbuf);
    for k := 0 to |table|
      invariant FillRows(s0, table, ymin, k, c.bytes) == Some(ScreenOf(pixels, zbuf))
    {
      ghost var before := ScreenOf(pixels, zbuf);
      var filled := FillScanline(pixels, zbuf, k + ymin, table[k], c);
      assert FillRows(s0, table, ymin, k + 1, c.bytes) == FillRow(before, k + ymin, table[k], c.bytes);
      if !filled {
        FillRowsNoneStaysNone(s0, table, ymin, k + 1, |table|, c.bytes);
        return false;
      }
    }
    ok := true;
  }

  /** `Rasterize::rasterize`: project and round the three vertices, order them by X, clamp
      the Y range to the screen, bucket the points of the three edges (yielded by `walk`,
      in the order `order` chooses) and fill every scanline with the depth test. `ok` is
      false where the source panics. */
  method Rasterize(poly: seq<Pt.Point>, order: R.LineOrder, walk: (R.Pt3, R.Pt3) -> seq<R.Pt3>,
                   pixels: B.PixelBuffer, zbuf: B.ZBuffer, c: B.Color) returns (ok: bool)
    requires |poly| == 3 && forall i :: 0 <= i < 3 ==> |poly[i].c| == 4
    requires |c.bytes| == 4
    modifies pixels.data, zbuf.data
    ensures var r := Rasterized(poly, order, walk, old(ScreenOf(pixels, zbuf)), c.bytes);
            (ok <==> r.Some?) && (ok ==> ScreenOf(pixels, zbuf) == r.value)
  {
    ghost var s0 := ScreenOf(pixels, zbuf);
    RasterizedGuards(poly, order, walk, s0, c.bytes);
    if pixels.width == 0 || pixels.height == 0 {
      return false;
    }
    var sw, sh := WrapI32(pixels.width - 1), WrapI32(pixels.height - 1);
    assert sw == WrapI32(s0.pw - 1) && sh == WrapI32(s0.ph - 1);
    if sh < 0 {
      return false;
    }
    if sw < 0 {
      var v := SortVertices([RoundVertex(poly[0]), RoundVertex(poly[1]), RoundVertex(poly[2])]);
      var pts := EdgeWalk(R.Lines(v, order), walk);
      return |pts| == 0;
    }
    var t := BuildTable(poly, order, walk, sw, sh);
    RasterizedFillsTable(poly, order, walk, s0, c.bytes, t);
    if t.None? {
      return false;
    }
    ok := FillAll(pixels, zbuf, t.value.0, t.value.1, c);
  }
}
