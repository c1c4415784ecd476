// src/pipeline.rs: the older screen-space pipeline. `get_polygons_to_draw`
// keeps the triangles lying strictly inside NDC space and maps them to the
// screen; `rasterize_polygon` sizes a table of scanline lists to the clamped
// Y range, orders the vertices by X and walks the three edges with the
// two-axis integer `draw_line`, pushing the x of every visited pixel into its
// row.  The triangles are `Primitives.Polygon`s of `Primitives.Vertex`, whose
// `p1`, `p2`, `p3` and `x`, `y`, `z`, `w` fields the code reads.

module Pipeline {
  import opened Numeric
  import P = Primitives
  import R = Rasterizer
  import opened Bresenham

  type Triangle = P.Polygon<P.Vertex>

  // ------------------------------------------------------------ min_max

  /** `min_max` on three i32 values: lower and upper bound, both drawn from the inputs. */
  function MinMax(a: int, b: int, c: int): (r: (int, int))
    ensures r.0 <= a && r.0 <= b && r.0 <= c && a <= r.1 && b <= r.1 && c <= r.1
    ensures (r.0 == a || r.0 == b || r.0 == c) && (r.1 == a || r.1 == b || r.1 == c)
  {
    var first := if a < b then (a, b) else (b, a);
    if c < first.0 then (c, first.1) else if c > first.1 then (first.0, c) else first
  }

  // ------------------------------------------------------------ draw_line

  /** The pixels `draw_line` visits, in order. The longer axis drives; the endpoints are
      swapped so that the driving coordinate rises. */
  function LinePixels(x1: int, y1: int, x2: int, y2: int): seq<Pixel>
  {
    if Abs(x2 - x1) > Abs(y2 - y1) then
      if x1 > x2 then XWalk(x2, y2, x1, y1) else XWalk(x1, y1, x2, y2)
    else if y1 > y2 then YWalk(x2, y2, x1, y1) else YWalk(x1, y1, x2, y2)
  }

  /** Driving along X: exactly dx pixels, one for each x in [min(x1, x2), max(x1, x2)),
      in increasing order. */
  lemma LineXDriven(x1: int, y1: int, x2: int, y2: int)
    requires Abs(x2 - x1) > Abs(y2 - y1)
    ensures var r := LinePixels(x1, y1, x2, y2);
            |r| == Abs(x2 - x1) && forall k :: 0 <= k < |r| ==> r[k].x == Min(x1, x2) + k
  {
  }

  /** Driving along Y: exactly dy pixels, one for each y in [min(y1, y2), max(y1, y2));
      a zero-length line visits nothing. */
  lemma LineYDriven(x1: int, y1: int, x2: int, y2: int)
    requires Abs(x2 - x1) <= Abs(y2 - y1)
    ensures var r := LinePixels(x1, y1, x2, y2);
            |r| == Abs(y2 - y1) && forall k :: 0 <= k < |r| ==> r[k].y == Min(y1, y2) + k
    ensures x1 == x2 && y1 == y2 ==> LinePixels(x1, y1, x2, y2) == []
  {
  }

  /** The direction of a line does not matter: both orders visit the same pixels. */
  lemma LineSymmetric(x1: int, y1: int, x2: int, y2: int)
    ensures LinePixels(x1, y1, x2, y2) == LinePixels(x2, y2, x1, y1)
  {
    if Abs(x2 - x1) <= Abs(y2 - y1) && y1 == y2 {
      assert x1 == x2;
    }
  }

  /** Every visited pixel lies in the box spanned by the endpoints, and consecutive
      pixels are neighbours. */
  lemma LineWithinBox(x1: int, y1: int, x2: int, y2: int, k: nat)
    requires k < |LinePixels(x1, y1, x2, y2)|
    ensures var p := LinePixels(x1, y1, x2, y2)[k];
            R.Lo(x1, x2) <= p.x <= R.Hi(x1, x2) && R.Lo(y1, y2) <= p.y <= R.Hi(y1, y2)
    ensures k + 1 < |LinePixels(x1, y1, x2, y2)| ==>
            var p, q := LinePixels(x1, y1, x2, y2)[k], LinePixels(x1, y1, x2, y2)[k + 1];
            Abs(q.x - p.x) <= 1 && Abs(q.y - p.y) <= 1
  {
    if Abs(x2 - x1) > Abs(y2 - y1) {
      if x1 > x2 { XWalkWithin(x2, y2, x1, y1, k); } else { XWalkWithin(x1, y1, x2, y2, k); }
    } else {
      if y1 > y2 { YWalkWithin(x2, y2, x1, y1, k); } else { YWalkWithin(x1, y1, x2, y2, k); }
    }
  }

  // ------------------------------------------------------------ scanline rows

  /** Every pixel's row `y − yoffset` is an index of a table of n rows. */
  predicate RowsIn(pts: seq<Pixel>, yoffset: int, n: nat)
  {
    forall k :: 0 <= k < |pts| ==> 0 <= pts[k].y - yoffset < n
  }

  /** The table after pushing the x of each pixel, in order, into row `y − yoffset`. */
  function Bucket(rows: seq<seq<int>>, pts: seq<Pixel>, yoffset: int): (r: seq<seq<int>>)
    requires RowsIn(pts, yoffset, |rows|)
    ensures |r| == |rows|
    decreases |pts|
  {
    if |pts| == 0 then rows
    else
      var prev := Bucket(rows, pts[..|pts| - 1], yoffset);
      var p := pts[|pts| - 1];
      prev[p.y - yoffset := prev[p.y - yoffset] + [p.x]]
  }

  /** The x values of the pixels lying on scanline y, in order. */
  function Crossings(pts: seq<Pixel>, y: int): seq<int>
    decreases |pts|
  {
    if |pts| == 0 then []
    else
      var p := pts[|pts| - 1];
      Crossings(pts[..|pts| - 1], y) + if p.y == y then [p.x] else []
  }

  /** Row i of the bucketed table is its old contents followed by the crossings of
      scanline i + yoffset, in visiting order. */
  lemma {:induction false} BucketRows(rows: seq<seq<int>>, pts: seq<Pixel>, yoffset: int)
    requires RowsIn(pts, yoffset, |rows|)
    ensures forall i :: 0 <= i < |rows| ==> Bucket(rows, pts, yoffset)[i] == rows[i] + Crossings(pts, i + yoffset)
  {
    if |pts| > 0 {
      var init := pts[..|pts| - 1];
      assert RowsIn(init, yoffset, |rows|) by {
        assert forall k :: 0 <= k < |init| ==> init[k] == pts[k];
      }
      BucketRows(rows, init, yoffset);
    }
  }

  /** Rows y0, y0 + 1, … visited once each give one crossing per scanline of the run. */
  lemma {:induction false} OneCrossingPerRow(pts: seq<Pixel>, y0: int, y: int)
    requires forall k :: 0 <= k < |pts| ==> pts[k].y == y0 + k
    ensures |Crossings(pts, y)| == if y0 <= y < y0 + |pts| then 1 else 0
  {
    if |pts| > 0 {
      var init := pts[..|pts| - 1];
      assert forall k :: 0 <= k < |init| ==> init[k] == pts[k];
      OneCrossingPerRow(init, y0, y);
    }
  }

  /** Driving along Y, `draw_line` pushes exactly one x into each row from min(y1, y2) up
      to but excluding max(y1, y2), and none into any other. */
  lemma YDrivenOnePerRow(x1: int, y1: int, x2: int, y2: int, y: int)
    requires Abs(x2 - x1) <= Abs(y2 - y1)
    ensures |Crossings(LinePixels(x1, y1, x2, y2), y)| == if R.Lo(y1, y2) <= y < R.Hi(y1, y2) then 1 else 0
  {
    LineYDriven(x1, y1, x2, y2);
    OneCrossingPerRow(LinePixels(x1, y1, x2, y2), Min(y1, y2), y);
  }

  /** A line whose endpoint rows both lie in [lo, hi] stays within hi − lo + 1 rows from lo. */
  lemma LineRowsIn(x1: int, y1: int, x2: int, y2: int, lo: int, hi: int)
    requires lo <= y1 <= hi && lo <= y2 <= hi
    ensures RowsIn(LinePixels(x1, y1, x2, y2), lo, hi - lo + 1)
  {
    forall k | 0 <= k < |LinePixels(x1, y1, x2, y2)| ensures lo <= LinePixels(x1, y1, x2, y2)[k].y <= hi {
      LineWithinBox(x1, y1, x2, y2, k);
    }
  }

  lemma RowsInSnoc(pts: seq<Pixel>, k: nat, yoffset: int, n: nat)
    requires k < |pts| && RowsIn(pts[..k], yoffset, n) && 0 <= pts[k].y - yoffset < n
    ensures RowsIn(pts[..k + 1], yoffset, n)
  {
    var init := pts[..k + 1];
    forall i | 0 <= i < |init| ensures 0 <= init[i].y - yoffset < n {
      if i < k {
        assert init[i] == pts[..k][i];
      }
    }
  }

  /** `edge_matrix[(y - y_offset) as usize].push(x)` for the k-th pixel of a walk whose
      first k pixels are already in the table. The index panics, and `ok` is false, when
      the row is outside the table. */
  method PushRow(table: array<seq<int>>, v: Pixel, yoffset: int, ghost rows0: seq<seq<int>>, ghost pts: seq<Pixel>, ghost k: nat)
      returns (ok: bool)
    requires k < |pts| && v == pts[k] && |rows0| == table.Length
    requires RowsIn(pts[..k], yoffset, table.Length) && table[..] == Bucket(rows0, pts[..k], yoffset)
    modifies table
    ensures ok <==> 0 <= v.y - yoffset < table.Length
    ensures ok ==> RowsIn(pts[..k + 1], yoffset, table.Length) && table[..] == Bucket(rows0, pts[..k + 1], yoffset)
  {
    var row := v.y - yoffset;
    if row < 0 || row >= table.Length {
      return false;
    }
    RowsInSnoc(pts, k, yoffset, table.Length);
    ghost var init := pts[..k + 1];
    assert init[..|init| - 1] == pts[..k];
    assert init[|init| - 1] == v;
    table[row] := table[row] + [v.x];
    ok := true;
  }

  /** The X-driven loop of `draw_line`, from (sx, sy) with sx ≤ ex. */
  method WalkX(sx: int, sy: int, ex: int, ey: int, table: array<seq<int>>, yoffset: int) returns (ok: bool)
    requires sx <= ex
    modifies table
    ensures ok <==> RowsIn(XWalk(sx, sy, ex, ey), yoffset, table.Length)
    ensures ok ==> table[..] == Bucket(old(table[..]), XWalk(sx, sy, ex, ey), yoffset)
  {
    ghost var pts := XWalk(sx, sy, ex, ey);
    ghost var rows0 := table[..];
    var dx, dy := ex - sx, Abs(ey - sy);
    var inc := if sy > ey then -1 else 1;
    var acc := 2 * (dy as int) - dx;
    var y := sy;
    for x := sx to ex
      invariant y == Minor(sy, ey, x - sx, dx, dy) && acc == R.Steps(x - sx, dx, dy).1
      invariant RowsIn(pts[..x - sx], yoffset, table.Length)
      invariant table[..] == Bucket(rows0, pts[..x - sx], yoffset)
    {
      var pushed := PushRow(table, Pixel(x, y), yoffset, rows0, pts, x - sx);
      if !pushed {
        return false;
      }
      y, acc := Advance(sy, ey, x - sx, dx, dy, y, acc, inc);
    }
    assert pts[..ex - sx] == pts;
    ok := true;
  }

  /** The Y-driven loop of `draw_line`, from (sx, sy) with sy ≤ ey. */
  method WalkY(sx: int, sy: int, ex: int, ey: int, table: array<seq<int>>, yoffset: int) returns (ok: bool)
    requires sy <= ey
    modifies table
    ensures ok <==> RowsIn(YWalk(sx, sy, ex, ey), yoffset, table.Length)
    ensures ok ==> table[..] == Bucket(old(table[..]), YWalk(sx, sy, ex, ey), yoffset)
  {
    ghost var pts := YWalk(sx, sy, ex, ey);
    ghost var rows0 := table[..];
    var dx, dy := Abs(ex - sx), ey - sy;
    var inc := if sx > ex then -1 else 1;
    var acc := 2 * (dx as int) - dy;
    var x := sx;
    for y := sy to ey
      invariant x == Minor(sx, ex, y - sy, dy, dx) && acc == R.Steps(y - sy, dy, dx).1
      invariant RowsIn(pts[..y - sy], yoffset, table.Length)
      invariant table[..] == Bucket(rows0, pts[..y - sy], yoffset)
    {
      var pushed := PushRow(table, Pixel(x, y), yoffset, rows0, pts, y - sy);
      if !pushed {
        return false;
      }
      x, acc := Advance(sx, ex, y - sy, dy, dx, x, acc, inc);
    }
    assert pts[..ey - sy] == pts;
    ok := true;
  }

  /** `draw_line`: the longer axis drives, with the endpoints swapped so that it rises.
      A pixel whose row is outside the table makes the push panic; then `ok` is false. */
  method DrawLine(x1: int, y1: int, x2: int, y2: int, table: array<seq<int>>, yoffset: int) returns (ok: bool)
    modifies table
    ensures ok <==> RowsIn(LinePixels(x1, y1, x2, y2), yoffset, table.Length)
    ensures ok ==> table[..] == Bucket(old(table[..]), LinePixels(x1, y1, x2, y2), yoffset)
  {
    var dx, dy := Abs(x2 - x1), Abs(y2 - y1);
    if dx > dy {
      if x1 > x2 {
        ok := WalkX(x2, y2, x1, y1, table, yoffset);
      } else {
        ok := WalkX(x1, y1, x2, y2, table, yoffset);
      }
    } else {
      if y1 > y2 {
        ok := WalkY(x2, y2, x1, y1, table, yoffset);
      } else {
        ok := WalkY(x1, y1, x2, y2, table, yoffset);
      }
    }
  }

  // ------------------------------------------------------------ rasterize_polygon

  /** The first swap: a vertex strictly left of both others moves to the front. */
  function LeastFirst(t: Triangle): Triangle
  {
    if t.p2.x < t.p1.x && t.p2.x < t.p3.x then t.(p1 := t.p2, p2 := t.p1)
    else if t.p3.x < t.p1.x && t.p3.x < t.p2.x then t.(p1 := t.p3, p3 := t.p1)
    else t
  }

  /** The swaps of `rasterize_polygon`, every comparison strict. */
  function XOrdered(t: Triangle): Triangle
  {
    var u := LeastFirst(t);
    if u.p3.x < u.p2.x then u.(p2 := u.p3, p3 := u.p2) else u
  }

  /** The swaps on the local copy of the polygon. */
  method SortByX(t: Triangle) returns (u: Triangle)
    ensures u == XOrdered(t)
  {
    u := t;
    if u.p2.x < u.p1.x && u.p2.x < u.p3.x {
      u := u.(p1 := u.p2, p2 := u.p1);
    } else if u.p3.x < u.p1.x && u.p3.x < u.p2.x {
      u := u.(p1 := u.p3, p3 := u.p1);
    }
    if u.p3.x < u.p2.x {
      u := u.(p2 := u.p3, p3 := u.p2);
    }
  }

  /** The last two vertices always end in X order; with three distinct X values the
      leftmost vertex comes first. When the later two tie below the first, nothing moves
      and the leftmost X is not first. The normal is untouched. */
  lemma XOrderedSorts(t: Triangle)
    ensures XOrdered(t).p2.x <= XOrdered(t).p3.x && XOrdered(t).normal == t.normal
    ensures t.p1.x != t.p2.x && t.p2.x != t.p3.x && t.p1.x != t.p3.x ==>
              XOrdered(t).p1.x < XOrdered(t).p2.x < XOrdered(t).p3.x
    ensures t.p2.x == t.p3.x < t.p1.x ==> XOrdered(t) == t
  {
  }

  /** The three orders the swaps can produce are permutations. */
  lemma Reordered<T>(a: T, b: T, c: T, u: seq<T>)
    requires u == [a, b, c] || u == [b, a, c] || u == [c, b, a] || u == [a, c, b] || u == [b, c, a] || u == [c, a, b]
    ensures multiset(u) == multiset([a, b, c])
  {
  }

  /** The swaps only reorder the three vertices. */
  lemma XOrderedPermutes(t: Triangle)
    ensures multiset(P.Corners(XOrdered(t))) == multiset(P.Corners(t))
  {
    var u := XOrdered(t);
    var a, b, c := t.p1, t.p2, t.p3;
    assert P.Corners(u) == [a, b, c] || P.Corners(u) == [b, a, c] || P.Corners(u) == [c, b, a]
        || P.Corners(u) == [a, c, b] || P.Corners(u) == [b, c, a] || P.Corners(u) == [c, a, b];
    Reordered(a, b, c, P.Corners(u));
  }

  /** Each sorted vertex is one of the given three. */
  lemma XOrderedMembers(t: Triangle)
    ensures var u := XOrdered(t);
            (u.p1 == t.p1 || u.p1 == t.p2 || u.p1 == t.p3) && (u.p2 == t.p1 || u.p2 == t.p2 || u.p2 == t.p3)
            && (u.p3 == t.p1 || u.p3 == t.p2 || u.p3 == t.p3)
  {
  }

  /** `(p.x as i32, p.y as i32)`. */
  function Cast(v: P.Vertex): Pixel
  {
    Pixel(CastI32(v.x), CastI32(v.y))
  }

  /** The three edges in drawing order: p1→p2, p1→p3, p2→p3. */
  function Edges(u: Triangle): seq<(Pixel, Pixel)>
  {
    [(Cast(u.p1), Cast(u.p2)), (Cast(u.p1), Cast(u.p3)), (Cast(u.p2), Cast(u.p3))]
  }

  function EdgePixels(e: (Pixel, Pixel)): seq<Pixel>
  {
    LinePixels(e.0.x, e.0.y, e.1.x, e.1.y)
  }

  /** The table after drawing the edges in turn, or `None` when a push panics. */
  function Traced(rows: seq<seq<int>>, edges: seq<(Pixel, Pixel)>, yoffset: int): (r: Option<seq<seq<int>>>)
    ensures r.Some? ==> |r.value| == |rows|
    decreases |edges|
  {
    if |edges| == 0 then Some(rows)
    else if RowsIn(EdgePixels(edges[0]), yoffset, |rows|) then
      Traced(Bucket(rows, EdgePixels(edges[0]), yoffset), edges[1..], yoffset)
    else None
  }

  /** The clamped row range [y_min, y_max], or `None` when `height - 1` underflows (a
      zero height with the clamp taken) or `y_max + 1` overflows i32. */
  function YRange(t: Triangle, height: nat): (r: Option<(int, int)>)
  {
    var mm := MinMax(CastI32(t.p1.y), CastI32(t.p2.y), CastI32(t.p3.y));
    var clamp := mm.1 >= WrapI32(height);
    if clamp && height == 0 then None
    else
      var hi := if clamp then WrapI32(height - 1) else mm.1;
      var lo := if mm.0 < 0 then 0 else mm.0;
      if hi + 1 > I32_MAX then None else Some((lo, hi))
  }

  /** The number of rows of `y_min..(y_max + 1)`. */
  function RowCount(lo: int, hi: int): nat
  {
    if lo <= hi then hi - lo + 1 else 0
  }

  /** n empty rows, as the `push(Vec::new())` loop leaves them. */
  function EmptyRows(n: nat): (r: seq<seq<int>>)
    ensures |r| == n && forall i :: 0 <= i < n ==> r[i] == []
  {
    seq(n, _ => [])
  }

  /** `rasterize_polygon`: the rows and their offset, or `None` where the code panics. */
  function Rasterized(t: Triangle, height: nat): Option<(seq<seq<int>>, int)>
  {
    TableFor(YRange(t, height), Edges(XOrdered(t)))
  }

  /** The rows for the range yr with the edges e drawn into them, and the offset. */
  function TableFor(yr: Option<(int, int)>, e: seq<(Pixel, Pixel)>): Option<(seq<seq<int>>, int)>
  {
    if yr.None? then None
    else
      var rows := Traced(EmptyRows(RowCount(yr.value.0, yr.value.1)), e, yr.value.0);
      if rows.None? then None else Some((rows.value, yr.value.0))
  }

  /** Three calls of `draw_line` into the same table. */
  method DrawEdges(e: seq<(Pixel, Pixel)>, table: array<seq<int>>, yoffset: int) returns (ok: bool)
    requires |e| == 3
    modifies table
    ensures var r := Traced(old(table[..]), e, yoffset);
            ok <==> r.Some? && (ok ==> table[..] == r.value)
  {
    ghost var t0 := table[..];
    assert e[1..][1..][1..] == [];
    ok := DrawLine(e[0].0.x, e[0].0.y, e[0].1.x, e[0].1.y, table, yoffset);
    if !ok {
      return;
    }
    ghost var t1 := table[..];
    assert Traced(t0, e, yoffset) == Traced(t1, e[1..], yoffset);
    ok := DrawLine(e[1].0.x, e[1].0.y, e[1].1.x, e[1].1.y, table, yoffset);
    if !ok {
      return;
    }
    ghost var t2 := table[..];
    assert Traced(t1, e[1..], yoffset) == Traced(t2, e[1..][1..], yoffset);
    ok := DrawLine(e[2].0.x, e[2].0.y, e[2].1.x, e[2].1.y, table, yoffset);
    if !ok {
      return;
    }
    assert Traced(t2, e[1..][1..], yoffset) == Traced(table[..], e[1..][1..][1..], yoffset);
  }

  /** `rasterize_polygon`: `None` stands for a panic (an underflowing `height - 1`, an
      overflowing `y_max + 1` or a push outside the table). */
  method RasterizePolygon(t: Triangle, height: nat) returns (r: Option<(seq<seq<int>>, int)>)
    ensures r == Rasterized(t, height)
  {
    var yr := RowRange(t, height);
    if yr.None? {
      return None;
    }
    var (lo, hi) := yr.value;
    var n := RowCount(lo, hi);
    var table := new seq<int>[n](_ => []);
    assert table[..] == EmptyRows(n);
    var u := SortByX(t);
    var ok := DrawEdges(Edges(u), table, lo);
    if !ok {
      return None;
    }
    r := Some((table[..], lo));
  }

  /** The rows `rasterize_polygon` allocates: the least and greatest vertex row, clamped
      to the screen; `None` where the clamp or the `y_max + 1` would panic. */
  method RowRange(t: Triangle, height: nat) returns (yr: Option<(int, int)>)
    ensures yr == YRange(t, height)
  {
    var mm := MinMax(CastI32(t.p1.y), CastI32(t.p2.y), CastI32(t.p3.y));
    var lo, hi := mm.0, mm.1;
    if hi >= WrapI32(height) {
      if height == 0 {
        return None;
      }
      hi := WrapI32(height - 1);
    }
    if lo < 0 {
      lo := 0;
    }
    if hi + 1 > I32_MAX {
      return None;
    }
    yr := Some((lo, hi));
  }

  /** The offset is the least row clamped to 0, and the rows cover y_min..=y_max. When
      the height fits in an i32, the table ends at or before the last screen row. */
  lemma RasterizedShape(t: Triangle, height: nat)
    requires Rasterized(t, height).Some?
    ensures var r := Rasterized(t, height).value;
            var mm := MinMax(CastI32(t.p1.y), CastI32(t.p2.y), CastI32(t.p3.y));
            r.1 == Max(mm.0, 0) && |r.0| == RowCount(r.1, YRange(t, height).value.1)
            && (height <= I32_MAX ==> r.1 + |r.0| <= Max(height, r.1))
  {
    YRangeShape(t, height);
  }

  /** The clamped range starts at the least row clamped to 0 and, with a height that fits
      in i32, ends before row `height`. */
  lemma YRangeShape(t: Triangle, height: nat)
    requires YRange(t, height).Some?
    ensures var yr := YRange(t, height).value;
            var mm := MinMax(CastI32(t.p1.y), CastI32(t.p2.y), CastI32(t.p3.y));
            yr.0 == Max(mm.0, 0) && (height <= I32_MAX ==> yr.0 + RowCount(yr.0, yr.1) <= Max(height, yr.0))
  {
    if height <= I32_MAX {
      WrapI32InRange(height);
      if height > 0 {
        WrapI32InRange(height - 1);
      }
    }
  }

  /** One edge of an on-screen triangle stays within the table. */
  lemma EdgeOnScreen(e: (Pixel, Pixel), lo: int, hi: int)
    requires lo <= e.0.y <= hi && lo <= e.1.y <= hi
    ensures RowsIn(EdgePixels(e), lo, hi - lo + 1)
  {
    LineRowsIn(e.0.x, e.0.y, e.1.x, e.1.y, lo, hi);
  }

  /** The vertex positions are kept through the sort, so each edge row lies between the
      least and the greatest vertex row. */
  lemma EdgesBetween(t: Triangle, i: nat)
    requires i < 3
    ensures var mm := MinMax(CastI32(t.p1.y), CastI32(t.p2.y), CastI32(t.p3.y));
            var e := Edges(XOrdered(t))[i];
            mm.0 <= e.0.y <= mm.1 && mm.0 <= e.1.y <= mm.1
  {
    XOrderedMembers(t);
  }

  /** The crossings of scanline y of every edge, in drawing order. */
  function EdgeCrossings(e: seq<(Pixel, Pixel)>, y: int): seq<int>
    decreases |e|
  {
    if |e| == 0 then [] else Crossings(EdgePixels(e[0]), y) + EdgeCrossings(e[1..], y)
  }

  /** Edges that each stay within the table are traced without a panic, and row i then
      holds its old contents followed by the crossings of scanline yoffset + i of every
      edge, in drawing order. */
  lemma {:induction false} TracedRows(rows: seq<seq<int>>, e: seq<(Pixel, Pixel)>, yoffset: int)
    requires forall j :: 0 <= j < |e| ==> RowsIn(EdgePixels(e[j]), yoffset, |rows|)
    ensures Traced(rows, e, yoffset).Some?
    ensures forall i :: 0 <= i < |rows| ==>
              Traced(rows, e, yoffset).value[i] == rows[i] + EdgeCrossings(e, yoffset + i)
    decreases |e|
  {
    if |e| > 0 {
      var next := Bucket(rows, EdgePixels(e[0]), yoffset);
      BucketRows(rows, EdgePixels(e[0]), yoffset);
      assert forall j :: 0 <= j < |e[1..]| ==> e[1..][j] == e[j + 1];
      TracedRows(next, e[1..], yoffset);
      forall i | 0 <= i < |rows|
        ensures Traced(rows, e, yoffset).value[i] == rows[i] + EdgeCrossings(e, yoffset + i)
      {
        assert i + yoffset == yoffset + i;
      }
    }
  }

  /** Every edge stays within the rows from the least to the greatest vertex row. */
  lemma EdgesInTable(t: Triangle)
    ensures var mm := MinMax(CastI32(t.p1.y), CastI32(t.p2.y), CastI32(t.p3.y));
            forall j :: 0 <= j < 3 ==> RowsIn(EdgePixels(Edges(XOrdered(t))[j]), mm.0, mm.1 - mm.0 + 1)
  {
    var mm := MinMax(CastI32(t.p1.y), CastI32(t.p2.y), CastI32(t.p3.y));
    forall j | 0 <= j < 3 ensures RowsIn(EdgePixels(Edges(XOrdered(t))[j]), mm.0, mm.1 - mm.0 + 1) {
      EdgesBetween(t, j);
      EdgeOnScreen(Edges(XOrdered(t))[j], mm.0, mm.1);
    }
  }

  /** On such a screen neither clamp applies. */
  lemma YRangeOnScreen(t: Triangle, height: nat)
    requires height <= I32_MAX
    requires 0 <= CastI32(t.p1.y) < height && 0 <= CastI32(t.p2.y) < height && 0 <= CastI32(t.p3.y) < height
    ensures YRange(t, height) == Some(MinMax(CastI32(t.p1.y), CastI32(t.p2.y), CastI32(t.p3.y)))
  {
    WrapI32InRange(height);
  }

  /** When every vertex row is on a screen whose height fits in an i32, no row of any edge
      falls outside the table: the call succeeds, the table covers the least to the
      greatest vertex row, and row i holds the crossings of scanline y_min + i of the three
      edges, in drawing order. */
  lemma OnScreenSucceeds(t: Triangle, height: nat)
    requires height <= I32_MAX
    requires 0 <= CastI32(t.p1.y) < height && 0 <= CastI32(t.p2.y) < height && 0 <= CastI32(t.p3.y) < height
    ensures Rasterized(t, height).Some?
    ensures var r := Rasterized(t, height).value;
            var mm := MinMax(CastI32(t.p1.y), CastI32(t.p2.y), CastI32(t.p3.y));
            r.1 == mm.0 && |r.0| == mm.1 - mm.0 + 1
            && forall i :: 0 <= i < |r.0| ==> r.0[i] == EdgeCrossings(Edges(XOrdered(t)), r.1 + i)
  {
    var mm := MinMax(CastI32(t.p1.y), CastI32(t.p2.y), CastI32(t.p3.y));
    YRangeOnScreen(t, height);
    EdgesInTable(t);
    TableForRange(Edges(XOrdered(t)), mm.0, mm.1);
  }

  /** With the row range [lo, hi] taken and every edge inside it, the call succeeds and
      row i holds the crossings of scanline lo + i of the edges, in drawing order. */
  lemma TableForRange(e: seq<(Pixel, Pixel)>, lo: int, hi: int)
    requires lo <= hi
    requires forall j :: 0 <= j < |e| ==> RowsIn(EdgePixels(e[j]), lo, hi - lo + 1)
    ensures TableFor(Some((lo, hi)), e).Some?
    ensures var r := TableFor(Some((lo, hi)), e).value;
            r.1 == lo && |r.0| == hi - lo + 1
            && forall i :: 0 <= i < |r.0| ==> r.0[i] == EdgeCrossings(e, r.1 + i)
  {
    var empty := EmptyRows(RowCount(lo, hi));
    TracedRows(empty, e, lo);
    var rows := Traced(empty, e, lo).value;
    forall i | 0 <= i < |rows| ensures rows[i] == EdgeCrossings(e, lo + i) {
      assert empty[i] == [];
    }
  }

  // ------------------------------------------------------------ get_polygons_to_draw

  /** The strict NDC test on all three vertices. */
  predicate Inside(t: Triangle)
  {
    P.InNdcSpace(t.p1) && P.InNdcSpace(t.p2) && P.InNdcSpace(t.p3)
  }

  /** x → ((x + 1) / 2)·width and y → ((y + 1) / 2)·height; z and w are kept. */
  function ToScreen(v: P.Vertex, width: nat, height: nat): P.Vertex
  {
    v.(x := NdcToScreen(v.x, width), y := NdcToScreen(v.y, height))
  }

  function Screened(t: Triangle, width: nat, height: nat): Triangle
  {
    t.(p1 := ToScreen(t.p1, width, height), p2 := ToScreen(t.p2, width, height), p3 := ToScreen(t.p3, width, height))
  }

  /** The kept and mapped polygons, in input order. */
  function PolygonsToDraw(ts: seq<Triangle>, width: nat, height: nat): seq<Triangle>
    decreases |ts|
  {
    if |ts| == 0 then []
    else
      PolygonsToDraw(ts[..|ts| - 1], width, height) + Kept(ts[|ts| - 1], width, height)
  }

  /** One polygon, mapped, if all its vertices are inside; nothing otherwise. */
  function Kept(t: Triangle, width: nat, height: nat): seq<Triangle>
  {
    if Inside(t) then [Screened(t, width, height)] else []
  }

  /** `get_polygons_to_draw`. */
  method GetPolygonsToDraw(ts: seq<Triangle>, width: nat, height: nat) returns (r: seq<Triangle>)
    ensures r == PolygonsToDraw(ts, width, height)
  {
    r := [];
    for i := 0 to |ts|
      invariant r == PolygonsToDraw(ts[..i], width, height)
    {
      var t := ts[i];
      assert ts[..i + 1][..i] == ts[..i];
      if Inside(t) {
        r := r + [Screened(t, width, height)];
      }
    }
    assert ts[..|ts|] == ts;
  }

  /** The filter is applied element by element: over a concatenation it concatenates,
      and a single polygon is kept, mapped, exactly when all its vertices are inside. */
  lemma {:induction false} PolygonsToDrawConcat(a: seq<Triangle>, b: seq<Triangle>, width: nat, height: nat)
    ensures PolygonsToDraw(a + b, width, height) == PolygonsToDraw(a, width, height) + PolygonsToDraw(b, width, height)
    ensures |b| == 1 ==> PolygonsToDraw(b, width, height) == if Inside(b[0]) then [Screened(b[0], width, height)] else []
    decreases |b|
  {
    if |b| == 0 {
      assert a + b == a;
    } else {
      var b' := b[..|b| - 1];
      var last := Kept(b[|b| - 1], width, height);
      PolygonsToDrawConcat(a, b', width, height);
      assert (a + b)[..|a + b| - 1] == a + b';
      assert (a + b)[|a + b| - 1] == b[|b| - 1];
      PolygonsToDrawSnoc(a + b, width, height);
      PolygonsToDrawSnoc(b, width, height);
      ConcatAssoc(PolygonsToDraw(a, width, height), PolygonsToDraw(b', width, height), last);
      if |b| == 1 {
        assert b' == [];
      }
    }
  }

  lemma PolygonsToDrawSnoc(ts: seq<Triangle>, width: nat, height: nat)
    requires |ts| > 0
    ensures PolygonsToDraw(ts, width, height)
         == PolygonsToDraw(ts[..|ts| - 1], width, height) + Kept(ts[|ts| - 1], width, height)
  {
  }

  lemma ConcatAssoc<T>(x: seq<T>, y: seq<T>, z: seq<T>)
    ensures (x + y) + z == x + (y + z)
  {
  }

  /** Every kept polygon is an input polygon lying inside NDC space, mapped. */
  lemma {:induction false} PolygonsToDrawFrom(ts: seq<Triangle>, width: nat, height: nat)
    ensures forall u <- PolygonsToDraw(ts, width, height) :: exists t <- ts :: Inside(t) && u == Screened(t, width, height)
    decreases |ts|
  {
    if |ts| > 0 {
      var init := ts[..|ts| - 1];
      PolygonsToDrawFrom(init, width, height);
      assert forall s <- init :: s in ts;
    }
  }

  /** A vertex inside NDC space lands strictly inside the screen, keeping z in (−1, 1). */
  lemma VertexOnScreen(v: P.Vertex, width: nat, height: nat)
    requires P.InNdcSpace(v) && width > 0 && height > 0
    ensures var s := ToScreen(v, width, height);
            0.0 < s.x < width as real && 0.0 < s.y < height as real && -1.0 < s.z < 1.0
  {
    ScaleInside(v.x, width);
    ScaleInside(v.y, height);
  }

  lemma ScreenedOnScreen(t: Triangle, width: nat, height: nat)
    requires Inside(t) && width > 0 && height > 0
    ensures forall v <- P.Corners(Screened(t, width, height)) ::
              0.0 < v.x < width as real && 0.0 < v.y < height as real && -1.0 < v.z < 1.0
  {
    VertexOnScreen(t.p1, width, height);
    VertexOnScreen(t.p2, width, height);
    VertexOnScreen(t.p3, width, height);
  }

  /** Every vertex of every kept polygon lies strictly inside the screen. */
  lemma PolygonsToDrawOnScreen(ts: seq<Triangle>, width: nat, height: nat)
    requires width > 0 && height > 0
    ensures forall u <- PolygonsToDraw(ts, width, height), v <- P.Corners(u) ::
              0.0 < v.x < width as real && 0.0 < v.y < height as real && -1.0 < v.z < 1.0
  {
    PolygonsToDrawFrom(ts, width, height);
    forall t <- ts | Inside(t) {
      ScreenedOnScreen(t, width, height);
    }
  }
}
