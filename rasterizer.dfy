// src/rasterizer.rs: an edge table for scanline filling. Each triangle edge is
// walked with a three-axis integer DDA in the style of Bresenham's algorithm,
// and every visited point is appended, as an (x, z) pair, to the list of its
// scanline.

module Rasterizer {
  import opened Numeric
  import Pt = Point
  import V = Vector

  datatype Error = NoEdge
  datatype Result<T> = Ok(value: T) | Err(error: Error)

  /** `XZPair`. */
  datatype XZPair = XZPair(x: int, z: int)

  /** `EdgeList`: the crossings of one scanline, in the order they were pushed.
      The table owns its lists, so a list is a value stored in a table slot. */
  datatype EdgeList = EdgeList(list: seq<XZPair>)

  /** `EdgeList::new`. */
  function NewList(): (e: EdgeList)
    ensures |e.list| == 0
  {
    EdgeList([])
  }

  /** `EdgeList::push`: one more pair at the end; the earlier pairs keep their order. */
  function Push(e: EdgeList, p: XZPair): (r: EdgeList)
    ensures |r.list| == |e.list| + 1
    ensures r.list[..|e.list|] == e.list && r.list[|e.list|] == p
  {
    EdgeList(e.list + [p])
  }

  /** `EdgeList::get_edges`: the first and the last pair, or `NoEdge` for an empty list. */
  function GetEdges(e: EdgeList): (r: Result<(XZPair, XZPair)>)
    ensures r.Err? <==> |e.list| == 0
    ensures r.Ok? ==> r.value.0 == e.list[0] && r.value.1 == e.list[|e.list| - 1]
  {
    if |e.list| == 0 then Err(NoEdge) else Ok((e.list[0], e.list[|e.list| - 1]))
  }

  /** After a push the last edge is the pushed pair, and the first edge is the old first
      pair, or the pushed pair again when the list was empty. */
  lemma GetEdgesAfterPush(e: EdgeList, p: XZPair)
    ensures GetEdges(Push(e, p)) == Ok((if |e.list| == 0 then p else e.list[0], p))
  {
  }

  /** `EdgeTable::min_max`: the least and the greatest of three values. */
  function MinMax(a: real, b: real, c: real): (r: (real, real))
    ensures r.0 <= a && r.0 <= b && r.0 <= c
    ensures a <= r.1 && b <= r.1 && c <= r.1
    ensures (r.0 == a || r.0 == b || r.0 == c) && (r.1 == a || r.1 == b || r.1 == c)
  {
    var (lo, hi) := if a < b then (a, b) else (b, a);
    if c < lo then (c, hi) else if c > hi then (lo, c) else (lo, hi)
  }

  // ------------------------------------------------------------ the DDA

  /** An integer point, after `as i32`. */
  datatype Pt3 = Pt3(x: int, y: int, z: int)

  /** `p[Dim::X] as i32`, `p[Dim::Y] as i32`, `p[Dim::Z] as i32`. */
  function CastPoint(p: Pt.Point): (r: Pt3)
    requires |p.c| >= 3
    ensures r.x == CastI32(p.c[0]) && r.y == CastI32(p.c[1]) && r.z == CastI32(p.c[2])
  {
    Pt3(CastI32(p.c[0]), CastI32(p.c[1]), CastI32(p.c[2]))
  }

  datatype Axis = X | Y | Z

  /** The driving axis: X when dx ≥ dy and dx ≥ dz, else Y when dy ≥ dx and dy ≥ dz,
      else Z. */
  function Driving(dx: nat, dy: nat, dz: nat): (a: Axis)
    ensures a == X <==> dx >= dy && dx >= dz
    ensures a == Y <==> !(dx >= dy && dx >= dz) && dy >= dx && dy >= dz
    ensures a == Z <==> !(dx >= dy && dx >= dz) && !(dy >= dx && dy >= dz)
  {
    if dx >= dy && dx >= dz then X else if dy >= dx && dy >= dz then Y else Z
  }

  /** `if a1 < a2 { 1 } else { -1 }`. */
  function Sign(a1: int, a2: int): int
  {
    if a1 < a2 then 1 else -1
  }

  lemma SignTimesDistance(a1: int, a2: int)
    ensures a2 - a1 == Sign(a1, a2) * Abs(a2 - a1)
  {
  }

  /** A point rewritten with the driving coordinate first and the two others after it,
      in the order the source's loop updates them. */
  function ToFrame(axis: Axis, p: Pt3): Pt3
  {
    match axis
    case X => p
    case Y => Pt3(p.y, p.x, p.z)
    case Z => Pt3(p.z, p.x, p.y)
  }

  /** The inverse of `ToFrame`. */
  function FromFrame(axis: Axis, f: Pt3): (p: Pt3)
    ensures ToFrame(axis, p) == f
  {
    match axis
    case X => f
    case Y => Pt3(f.y, f.x, f.z)
    case Z => Pt3(f.y, f.z, f.x)
  }

  /** How far a minor axis has advanced, and its gain, after k steps of the driving axis.
      The gain starts at 2·dm − da; a positive gain advances the axis and pays 2·da, and
      every step earns 2·dm. */
  function Steps(k: nat, da: nat, dm: nat): (nat, int)
    decreases k
  {
    if k == 0 then (0, 2 * dm - da)
    else
      var prev := Steps(k - 1, da, dm);
      if prev.1 > 0 then (prev.0 + 1, prev.1 - 2 * da + 2 * dm) else (prev.0, prev.1 + 2 * dm)
  }

  function Offset(k: nat, da: nat, dm: nat): nat
  {
    Steps(k, da, dm).0
  }

  /** The gain stays in the window (2·dm − 2·da, 2·dm]. */
  lemma {:induction false} GainWindow(k: nat, da: nat, dm: nat)
    requires 0 < da && dm <= da
    ensures 2 * dm - 2 * da < Steps(k, da, dm).1 <= 2 * dm
  {
    if k > 0 {
      GainWindow(k - 1, da, dm);
    }
  }

  /** The accounting identity behind the DDA: the gain is 2·dm·(k + 1) − da − 2·da·o. */
  lemma GainStep(g: int, o: int, k: int, da: int, dm: int)
    requires g == 2 * dm * k - da - 2 * da * o
    ensures g - 2 * da + 2 * dm == 2 * dm * (k + 1) - da - 2 * da * (o + 1)
    ensures g + 2 * dm == 2 * dm * (k + 1) - da - 2 * da * o
  {
    assert 2 * dm * (k + 1) == 2 * dm * k + 2 * dm;
    assert 2 * da * (o + 1) == 2 * da * o + 2 * da;
  }

  lemma {:induction false} GainIdentity(k: nat, da: nat, dm: nat)
    ensures Steps(k, da, dm).1 == 2 * dm * (k + 1) - da - 2 * da * Steps(k, da, dm).0
  {
    if k > 0 {
      GainIdentity(k - 1, da, dm);
      var prev := Steps(k - 1, da, dm);
      GainStep(prev.1, prev.0, k, da, dm);
    }
  }

  lemma MulMono(a: int, b: int, c: int)
    requires a <= b && 0 <= c
    ensures a * c <= b * c
  {
    assert b * c - a * c == (b - a) * c;
  }

  /** 2·da·o lies in [2·dm·k − da, 2·dm·k + da). */
  lemma NearIdealWindow(k: nat, da: nat, dm: nat)
    requires 0 < da && dm <= da
    ensures 2 * dm * k - da <= 2 * da * Offset(k, da, dm) < 2 * dm * k + da
  {
    GainWindow(k, da, dm);
    GainIdentity(k, da, dm);
    assert 2 * dm * (k + 1) == 2 * dm * k + 2 * dm;
  }

  lemma OffsetAtMost(o: int, k: nat, da: nat, dm: nat)
    requires 0 < da && k <= da && 2 * da * o < 2 * dm * k + da
    ensures o <= dm
  {
    if o > dm {
      MulMono(dm + 1, o, 2 * da);
      MulMono(k, da, 2 * dm);
    }
  }

  lemma OffsetAtLeast(o: int, da: nat, dm: nat)
    requires 0 < da && 2 * dm * da - da <= 2 * da * o
    ensures dm <= o
  {
    if o < dm {
      MulMono(o, dm - 1, 2 * da);
    }
  }

  /** The minor axis stays within half a step of the ideal line: 2·da·o lies in
      [2·dm·k − da, 2·dm·k + da), so it never passes dm and it reaches dm exactly at the
      last step. */
  lemma OffsetNearIdeal(k: nat, da: nat, dm: nat)
    requires dm <= da && k <= da
    ensures da > 0 ==> 2 * dm * k - da <= 2 * da * Offset(k, da, dm) < 2 * dm * k + da
    ensures Offset(k, da, dm) <= dm
    ensures k == da ==> Offset(k, da, dm) == dm
  {
    if da == 0 {
      assert Steps(0, da, dm) == (0, 0);
    } else {
      NearIdealWindow(k, da, dm);
      OffsetAtMost(Offset(k, da, dm), k, da, dm);
      if k == da {
        OffsetAtLeast(Offset(k, da, dm), da, dm);
      }
    }
  }

  /** In one step of the driving axis a minor axis advances by zero or one. */
  lemma {:induction false} OffsetStep(k: nat, da: nat, dm: nat)
    ensures Offset(k + 1, da, dm) == Offset(k, da, dm) || Offset(k + 1, da, dm) == Offset(k, da, dm) + 1
  {
  }

  /** o units from m1 in the direction of m2 (down when m1 = m2, as the source's sign). */
  function Toward(m1: int, m2: int, o: int): int
  {
    if m1 < m2 then m1 + o else m1 - o
  }

  lemma TowardIsSign(m1: int, m2: int, o: int)
    ensures Toward(m1, m2, o) == m1 + Sign(m1, m2) * o
  {
  }

  /** The coordinate of the driving axis after k steps. */
  function Along(a1: int, a2: int, k: nat): int
  {
    Toward(a1, a2, k)
  }

  /** The coordinate of a minor axis after k steps of a driving axis of length da. */
  function Minor(m1: int, m2: int, k: nat, da: nat): int
  {
    Toward(m1, m2, Offset(k, da, Abs(m2 - m1)))
  }

  /** |x2 − x1|, |y2 − y1|, |z2 − z1|, in the driving frame. */
  function Deltas(p: Pt3, q: Pt3): (nat, nat, nat)
  {
    (Abs(q.x - p.x), Abs(q.y - p.y), Abs(q.z - p.z))
  }

  function Drive(p: Pt3, q: Pt3): Axis
  {
    var (dx, dy, dz) := Deltas(p, q);
    Driving(dx, dy, dz)
  }

  /** The number of driving steps, the largest of the three deltas. */
  function Length(p: Pt3, q: Pt3): nat
  {
    var (dx, dy, dz) := Deltas(p, q);
    match Driving(dx, dy, dz)
    case X => dx
    case Y => dy
    case Z => dz
  }

  /** The walk is as long as the distance along its driving axis, and no other axis is
      longer. */
  lemma LengthIsLargest(p: Pt3, q: Pt3)
    ensures Length(p, q) == Abs(ToFrame(Drive(p, q), q).x - ToFrame(Drive(p, q), p).x)
    ensures Length(p, q) >= Abs(ToFrame(Drive(p, q), q).y - ToFrame(Drive(p, q), p).y)
    ensures Length(p, q) >= Abs(ToFrame(Drive(p, q), q).z - ToFrame(Drive(p, q), p).z)
  {
  }

  /** The k-th point `draw_line` visits. */
  function LinePoint(p: Pt3, q: Pt3, k: nat): Pt3
  {
    var axis := Drive(p, q);
    var s := ToFrame(axis, p);
    var e := ToFrame(axis, q);
    var n := Length(p, q);
    FromFrame(axis, Pt3(Along(s.x, e.x, k), Minor(s.y, e.y, k, n), Minor(s.z, e.z, k, n)))
  }

  /** Every point `draw_line` visits, in the order it pushes them. */
  function LinePoints(p: Pt3, q: Pt3): (r: seq<Pt3>)
    ensures |r| == Length(p, q) + 1
  {
    seq(Length(p, q) + 1, k requires 0 <= k => LinePoint(p, q, k))
  }

  lemma FrameRoundTrip(axis: Axis, p: Pt3)
    ensures FromFrame(axis, ToFrame(axis, p)) == p
  {
  }

  /** The walk starts at the first endpoint. */
  lemma LineStart(p: Pt3, q: Pt3)
    ensures LinePoints(p, q)[0] == p
  {
    var axis := Drive(p, q);
    var s := ToFrame(axis, p);
    assert Steps(0, Length(p, q), Abs(ToFrame(axis, q).y - s.y)).0 == 0;
    assert Steps(0, Length(p, q), Abs(ToFrame(axis, q).z - s.z)).0 == 0;
    assert LinePoint(p, q, 0) == FromFrame(axis, Pt3(s.x, s.y, s.z));
    FrameRoundTrip(axis, p);
  }

  /** The walk ends exactly at the second endpoint, after Length(p, q) steps. */
  lemma LineEnd(p: Pt3, q: Pt3)
    ensures LinePoints(p, q)[Length(p, q)] == q
  {
    var axis := Drive(p, q);
    var s := ToFrame(axis, p);
    var e := ToFrame(axis, q);
    var n := Length(p, q);
    LengthIsLargest(p, q);
    OffsetNearIdeal(n, n, Abs(e.y - s.y));
    OffsetNearIdeal(n, n, Abs(e.z - s.z));
    SignTimesDistance(s.x, e.x);
    SignTimesDistance(s.y, e.y);
    SignTimesDistance(s.z, e.z);
    assert LinePoint(p, q, n) == FromFrame(axis, Pt3(e.x, e.y, e.z));
    FrameRoundTrip(axis, q);
  }

  /** The driving coordinate moves by one unit each step, toward the second endpoint:
      the X-driven walk visits every x from x1 to x2 in travel order, and the Y-driven
      walk every row from y1 to y2. */
  lemma LineDrive(p: Pt3, q: Pt3, k: nat)
    requires k <= Length(p, q)
    ensures ToFrame(Drive(p, q), LinePoints(p, q)[k]).x
         == ToFrame(Drive(p, q), p).x + Sign(ToFrame(Drive(p, q), p).x, ToFrame(Drive(p, q), q).x) * k
  {
    TowardIsSign(ToFrame(Drive(p, q), p).x, ToFrame(Drive(p, q), q).x, k);
  }

  function Lo(a: int, b: int): int { if a <= b then a else b }
  function Hi(a: int, b: int): int { if a <= b then b else a }

  lemma MinorBetween(m1: int, m2: int, k: nat, da: nat)
    requires Abs(m2 - m1) <= da && k <= da
    ensures Lo(m1, m2) <= Minor(m1, m2, k, da) <= Hi(m1, m2)
  {
    OffsetNearIdeal(k, da, Abs(m2 - m1));
  }

  /** Every point of the walk lies in the box spanned by its endpoints. */
  lemma LineWithinEndpoints(p: Pt3, q: Pt3, k: nat)
    requires k <= Length(p, q)
    ensures Lo(p.x, q.x) <= LinePoint(p, q, k).x <= Hi(p.x, q.x)
    ensures Lo(p.y, q.y) <= LinePoint(p, q, k).y <= Hi(p.y, q.y)
    ensures Lo(p.z, q.z) <= LinePoint(p, q, k).z <= Hi(p.z, q.z)
  {
    var axis := Drive(p, q);
    var s := ToFrame(axis, p);
    var e := ToFrame(axis, q);
    var n := Length(p, q);
    LengthIsLargest(p, q);
    MinorBetween(s.y, e.y, k, n);
    MinorBetween(s.z, e.z, k, n);
  }

  /** Consecutive points are neighbours: each coordinate moves by at most one, and the
      driving coordinate by exactly one. */
  lemma LineConnected(p: Pt3, q: Pt3, k: nat)
    requires k < Length(p, q)
    ensures Abs(LinePoint(p, q, k + 1).x - LinePoint(p, q, k).x) <= 1
    ensures Abs(LinePoint(p, q, k + 1).y - LinePoint(p, q, k).y) <= 1
    ensures Abs(LinePoint(p, q, k + 1).z - LinePoint(p, q, k).z) <= 1
    ensures Abs(ToFrame(Drive(p, q), LinePoint(p, q, k + 1)).x - ToFrame(Drive(p, q), LinePoint(p, q, k)).x) == 1
  {
    var axis := Drive(p, q);
    var s := ToFrame(axis, p);
    var e := ToFrame(axis, q);
    var n := Length(p, q);
    LengthIsLargest(p, q);
    OffsetStep(k, n, Abs(e.y - s.y));
    OffsetStep(k, n, Abs(e.z - s.z));
  }

  /** A minor coordinate is the nearest grid value to the ideal line: its distance o
      from m1 satisfies |2·da·o − 2·|m2 − m1|·k| ≤ da, i.e. it is within half a unit of
      |m2 − m1|·k/da. */
  lemma MinorNearIdeal(m1: int, m2: int, k: nat, da: nat)
    requires 0 < da && Abs(m2 - m1) <= da && k <= da
    ensures 2 * Abs(m2 - m1) * k - da <= 2 * da * Abs(Minor(m1, m2, k, da) - m1) < 2 * Abs(m2 - m1) * k + da
  {
    OffsetNearIdeal(k, da, Abs(m2 - m1));
  }

  // ------------------------------------------------------------ buckets

  /** Every point's row `y − yoffset` is an index of a table of n lists. */
  predicate RowsIn(pts: seq<Pt3>, yoffset: int, n: nat)
  {
    forall k :: 0 <= k < |pts| ==> 0 <= pts[k].y - yoffset < n
  }

  /** The table after pushing `(x, z)` of each point, in order, into row `y − yoffset`. */
  function Bucket(rows: seq<EdgeList>, pts: seq<Pt3>, yoffset: int): (r: seq<EdgeList>)
    requires RowsIn(pts, yoffset, |rows|)
    ensures |r| == |rows|
    decreases |pts|
  {
    if |pts| == 0 then rows
    else
      var prev := Bucket(rows, pts[..|pts| - 1], yoffset);
      var p := pts[|pts| - 1];
      prev[p.y - yoffset := Push(prev[p.y - yoffset], XZPair(p.x, p.z))]
  }

  /** The pairs of the points lying on scanline y, in order. */
  function Crossings(pts: seq<Pt3>, y: int): seq<XZPair>
    decreases |pts|
  {
    if |pts| == 0 then []
    else
      var p := pts[|pts| - 1];
      Crossings(pts[..|pts| - 1], y) + if p.y == y then [XZPair(p.x, p.z)] else []
  }

  /** Row i of the bucketed table is its old list followed by the crossings of scanline
      i + yoffset, in the order they were visited; nothing is lost or reordered. */
  lemma {:induction false} BucketRows(rows: seq<EdgeList>, pts: seq<Pt3>, yoffset: int)
    requires RowsIn(pts, yoffset, |rows|)
    ensures forall i :: 0 <= i < |rows| ==>
      Bucket(rows, pts, yoffset)[i].list == rows[i].list + Crossings(pts, i + yoffset)
  {
    if |pts| > 0 {
      var init := pts[..|pts| - 1];
      assert RowsIn(init, yoffset, |rows|) by {
        assert forall k :: 0 <= k < |init| ==> init[k] == pts[k];
      }
      BucketRows(rows, init, yoffset);
    }
  }

  /** When the rows of the points are y0, y0 + s, y0 + 2s, … (s = ±1), every scanline
      in that run gets exactly one crossing and the others none. */
  lemma {:induction false} OneCrossingPerRow(pts: seq<Pt3>, y0: int, s: int, y: int)
    requires s == 1 || s == -1
    requires forall k :: 0 <= k < |pts| ==> pts[k].y == y0 + s * k
    ensures |Crossings(pts, y)| == if 0 <= s * (y - y0) < |pts| then 1 else 0
  {
    if |pts| > 0 {
      var init := pts[..|pts| - 1];
      assert forall k :: 0 <= k < |init| ==> init[k] == pts[k];
      OneCrossingPerRow(init, y0, s, y);
      assert pts[|pts| - 1].y == y0 + s * (|pts| - 1);
      assert s * s == 1;
      assert pts[|pts| - 1].y == y <==> s * (y - y0) == |pts| - 1;
    }
  }

  /** With Y driving, `draw_line` puts exactly one pair into each scanline from y1 to y2
      and none into any other. */
  lemma YDrivenOnePerRow(p: Pt3, q: Pt3, y: int)
    requires Drive(p, q) == Y
    ensures |Crossings(LinePoints(p, q), y)| == if Lo(p.y, q.y) <= y <= Hi(p.y, q.y) then 1 else 0
  {
    var pts := LinePoints(p, q);
    var s := Sign(p.y, q.y);
    forall k | 0 <= k < |pts| ensures pts[k].y == p.y + s * k {
      LineDrive(p, q, k);
    }
    OneCrossingPerRow(pts, p.y, s, y);
  }

  /** The DDA state after k steps, in the driving frame, is the k-th point of the walk. */
  /** The walk's loop state after k steps in the driving frame from s to e: the driving
      coordinate has moved k units, and each minor coordinate and its gain are those of
      `Steps`. */
  predicate Walking(s: Pt3, e: Pt3, da: nat, k: nat, a: int, b: int, c: int, bgain: int, cgain: int)
  {
    && a == Along(s.x, e.x, k)
    && b == Toward(s.y, e.y, Steps(k, da, Abs(e.y - s.y)).0) && bgain == Steps(k, da, Abs(e.y - s.y)).1
    && c == Toward(s.z, e.z, Steps(k, da, Abs(e.z - s.z)).0) && cgain == Steps(k, da, Abs(e.z - s.z)).1
  }

  /** `pts` is the walk of `da` driving steps from s to e in the frame of `axis`, read
      back out of that frame. */
  predicate InFrame(axis: Axis, s: Pt3, e: Pt3, da: nat, pts: seq<Pt3>)
  {
    |pts| == da + 1
    && forall k :: 0 <= k <= da ==>
         pts[k] == FromFrame(axis, Pt3(Along(s.x, e.x, k), Minor(s.y, e.y, k, da), Minor(s.z, e.z, k, da)))
  }

  /** The points of an edge are its walk in the driving frame. */
  lemma LinePointsInFrame(p: Pt3, q: Pt3)
    ensures InFrame(Drive(p, q), ToFrame(Drive(p, q), p), ToFrame(Drive(p, q), q), Length(p, q), LinePoints(p, q))
  {
  }

  /** The loop state after k steps, read back out of the driving frame, is the k-th point
      of the walk. */
  lemma CurrentPoint(axis: Axis, s: Pt3, e: Pt3, da: nat, pts: seq<Pt3>, k: nat, a: int, b: int, c: int, bgain: int, cgain: int)
    requires InFrame(axis, s, e, da, pts) && k <= da
    requires Walking(s, e, da, k, a, b, c, bgain, cgain)
    ensures FromFrame(axis, Pt3(a, b, c)) == pts[k]
  {
  }

  /** One loop iteration keeps the walk in step: the driving coordinate advances, and each
      minor coordinate advances where its gain was positive. */
  lemma WalkingStep(s: Pt3, e: Pt3, da: nat, k: nat, a: int, b: int, c: int, bgain: int, cgain: int)
    requires Walking(s, e, da, k, a, b, c, bgain, cgain)
    ensures var db, dc := Abs(e.y - s.y), Abs(e.z - s.z);
            Walking(s, e, da, k + 1, a + Sign(s.x, e.x),
                    if bgain > 0 then b + Sign(s.y, e.y) else b,
                    if cgain > 0 then c + Sign(s.z, e.z) else c,
                    (if bgain > 0 then bgain - 2 * da else bgain) + 2 * db,
                    (if cgain > 0 then cgain - 2 * da else cgain) + 2 * dc)
  {
    MinorStep(s.y, e.y, k, da, Abs(e.y - s.y), b, bgain);
    MinorStep(s.z, e.z, k, da, Abs(e.z - s.z), c, cgain);
  }

  /** One DDA step on a minor axis: when the gain is positive the coordinate moves one
      unit toward m2 and the gain drops by 2·da; either way it then rises by 2·dm. */
  lemma MinorStep(m1: int, m2: int, k: nat, da: nat, dm: nat, b: int, g: int)
    requires dm == Abs(m2 - m1)
    requires b == Toward(m1, m2, Steps(k, da, dm).0) && g == Steps(k, da, dm).1
    ensures g > 0 ==> (b + Sign(m1, m2) == Toward(m1, m2, Steps(k + 1, da, dm).0)
                       && g - 2 * da + 2 * dm == Steps(k + 1, da, dm).1)
    ensures g <= 0 ==> (b == Toward(m1, m2, Steps(k + 1, da, dm).0)
                        && g + 2 * dm == Steps(k + 1, da, dm).1)
  {
  }

  /** Row membership extends from a prefix to one more point whose row is inside. */
  lemma RowsInSnoc(pts: seq<Pt3>, k: nat, yoffset: int, n: nat)
    requires k < |pts| && RowsIn(pts[..k], yoffset, n) && 0 <= pts[k].y - yoffset < n
    ensures RowsIn(pts[..k + 1], yoffset, n)
  {
    var init := pts[..k + 1];
    forall i | 0 <= i < |init| ensures 0 <= init[i].y - yoffset < n {
      if i < k {
        assert init[i] == pts[..k][i];
      }
    }
  }

  /** Pushing one more point extends the bucketed table by that point alone. */
  lemma BucketSnoc(rows: seq<EdgeList>, pts: seq<Pt3>, k: nat, yoffset: int)
    requires k < |pts| && RowsIn(pts[..k], yoffset, |rows|) && 0 <= pts[k].y - yoffset < |rows|
    ensures RowsIn(pts[..k + 1], yoffset, |rows|)
    ensures Bucket(rows, pts[..k + 1], yoffset)
         == Bucket(rows, pts[..k], yoffset)[pts[k].y - yoffset := Push(Bucket(rows, pts[..k], yoffset)[pts[k].y - yoffset], XZPair(pts[k].x, pts[k].z))]
  {
    RowsInSnoc(pts, k, yoffset, |rows|);
    var init := pts[..k + 1];
    assert init[..|init| - 1] == pts[..k];
    assert init[|init| - 1] == pts[k];
  }

  /** `table[(y - yoffset) as usize].push(XZPair { x, z })` for the k-th point of a walk
      whose first k points are already in the table; the index panics, and `ok` is false,
      when the row is outside the table. */
  method PushRow(table: array<EdgeList>, v: Pt3, yoffset: int, ghost rows0: seq<EdgeList>, ghost pts: seq<Pt3>, ghost k: nat)
      returns (ok: bool)
    requires k < |pts| && v == pts[k] && |rows0| == table.Length
    requires RowsIn(pts[..k], yoffset, table.Length) && table[..] == Bucket(rows0, pts[..k], yoffset)
    modifies table
    ensures ok <==> 0 <= v.y - yoffset < table.Length
    ensures ok ==> RowsIn(pts[..k + 1], yoffset, table.Length) && table[..] == Bucket(rows0, pts[..k + 1], yoffset)
    ensures !ok ==> table[..] == old(table[..])
  {
    var row := v.y - yoffset;
    if row < 0 || row >= table.Length {
      return false;
    }
    BucketSnoc(rows0, pts, k, yoffset);
    table[row] := Push(table[row], XZPair(v.x, v.z));
    ok := true;
  }

  /** `EdgeTable::draw_line`: casts both endpoints to i32 and walks the edge, pushing
      `(x, z)` into row `y − yoffset` for each visited point. The push panics when a row
      is outside the table; then `ok` is false. */
  method DrawLine(p1: Pt.Point, p2: Pt.Point, table: array<EdgeList>, yoffset: int) returns (ok: bool)
    requires |p1.c| >= 3 && |p2.c| >= 3
    modifies table
    ensures ok <==> RowsIn(LinePoints(CastPoint(p1), CastPoint(p2)), yoffset, table.Length)
    ensures ok ==> table[..] == Bucket(old(table[..]), LinePoints(CastPoint(p1), CastPoint(p2)), yoffset)
  {
    var p := CastPoint(p1);
    var q := CastPoint(p2);
    var axis := Drive(p, q);
    LinePointsInFrame(p, q);
    ok := WalkInFrame(axis, ToFrame(axis, p), ToFrame(axis, q), Length(p, q), table, yoffset, LinePoints(p, q));
  }

  /** The loop of `draw_line`, in the frame of its driving axis: the driving coordinate
      moves one unit per step and each minor coordinate follows its gain. */
  method WalkInFrame(axis: Axis, s: Pt3, e: Pt3, da: nat, table: array<EdgeList>, yoffset: int, ghost pts: seq<Pt3>)
      returns (ok: bool)
    requires InFrame(axis, s, e, da, pts)
    modifies table
    ensures ok <==> RowsIn(pts, yoffset, table.Length)
    ensures ok ==> table[..] == Bucket(old(table[..]), pts, yoffset)
  {
    ghost var rows0 := table[..];
    var db, dc := Abs(e.y - s.y), Abs(e.z - s.z);
    var sa, sb, sc := Sign(s.x, e.x), Sign(s.y, e.y), Sign(s.z, e.z);
    var a, b, c := s.x, s.y, s.z;
    var bgain: int, cgain: int := 2 * (db as int) - da, 2 * (dc as int) - da;
    for k := 0 to da + 1
      invariant Walking(s, e, da, k, a, b, c, bgain, cgain)
      invariant RowsIn(pts[..k], yoffset, table.Length)
      invariant table[..] == Bucket(rows0, pts[..k], yoffset)
    {
      var v := FromFrame(axis, Pt3(a, b, c));
      CurrentPoint(axis, s, e, da, pts, k, a, b, c, bgain, cgain);
      var pushed := PushRow(table, v, yoffset, rows0, pts, k);
      if !pushed {
        return false;
      }
      WalkingStep(s, e, da, k, a, b, c, bgain, cgain);
      if bgain > 0 {
        b := b + sb;
        bgain := bgain - 2 * da;
      }
      if cgain > 0 {
        c := c + sc;
        cgain := cgain - 2 * da;
      }
      bgain := bgain + 2 * db;
      cgain := cgain + 2 * dc;
      a := a + sa;
    }
    assert pts[..da + 1] == pts;
    ok := true;
  }

  /** An edge whose endpoint rows both lie in [lo, hi] stays within a table of
      hi − lo + 1 rows offset by lo. */
  lemma LineRowsIn(p: Pt3, q: Pt3, lo: int, hi: int)
    requires lo <= p.y <= hi && lo <= q.y <= hi
    ensures RowsIn(LinePoints(p, q), lo, hi - lo + 1)
  {
    forall k | 0 <= k <= Length(p, q) ensures lo <= LinePoint(p, q, k).y <= hi {
      LineWithinEndpoints(p, q, k);
    }
  }

  // ------------------------------------------------------------ EdgeTable

  /** `EdgeTable`: the scanline lists for rows ymin..=ymax and a normal that `From`
      leaves at its default. */
  datatype EdgeTable = EdgeTable(table: seq<EdgeList>, ymin: int, ymax: int, normal: V.Vector)

  /** The first swap: a vertex strictly left of both others moves to the front. */
  function LeastFirst(v: seq<Pt.Point>): (u: seq<Pt.Point>)
    requires |v| == 3 && forall i :: 0 <= i < 3 ==> |v[i].c| >= 1
    ensures |u| == 3 && forall i :: 0 <= i < 3 ==> |u[i].c| >= 1
  {
    if v[1].c[0] < v[0].c[0] && v[1].c[0] < v[2].c[0] then [v[1], v[0], v[2]]
    else if v[2].c[0] < v[0].c[0] && v[2].c[0] < v[1].c[0] then [v[2], v[1], v[0]]
    else v
  }

  /** The last swap: the two later vertices are exchanged when strictly out of order. */
  function LastTwoOrdered(u: seq<Pt.Point>): (w: seq<Pt.Point>)
    requires |u| == 3 && forall i :: 0 <= i < 3 ==> |u[i].c| >= 1
    ensures |w| == 3
  {
    if u[2].c[0] < u[1].c[0] then [u[0], u[2], u[1]] else u
  }

  /** The swaps that order the vertices by X; every comparison is strict. */
  function XOrdered(v: seq<Pt.Point>): (w: seq<Pt.Point>)
    requires |v| == 3 && forall i :: 0 <= i < 3 ==> |v[i].c| >= 1
    ensures |w| == 3
  {
    LastTwoOrdered(LeastFirst(v))
  }

  /** With three distinct X values the vertices end sorted by X; the last two are always in
      order. When the two later vertices tie below the first, no swap fires and the
      largest X stays first. */
  lemma XOrderedSorts(v: seq<Pt.Point>)
    requires |v| == 3 && forall i :: 0 <= i < 3 ==> |v[i].c| >= 1
    ensures XOrdered(v)[1].c[0] <= XOrdered(v)[2].c[0]
    ensures v[0].c[0] != v[1].c[0] && v[1].c[0] != v[2].c[0] && v[0].c[0] != v[2].c[0] ==>
              XOrdered(v)[0].c[0] < XOrdered(v)[1].c[0] < XOrdered(v)[2].c[0]
    ensures v[1].c[0] == v[2].c[0] < v[0].c[0] ==> XOrdered(v) == v
  {
  }

  lemma SwapFront<T>(a: T, b: T, c: T)
    ensures multiset([b, a, c]) == multiset([a, b, c])
  {
  }

  lemma SwapEnds<T>(a: T, b: T, c: T)
    ensures multiset([c, b, a]) == multiset([a, b, c])
  {
  }

  lemma SwapBack<T>(a: T, b: T, c: T)
    ensures multiset([a, c, b]) == multiset([a, b, c])
  {
  }

  lemma LeastFirstPermutes(v: seq<Pt.Point>)
    requires |v| == 3 && forall i :: 0 <= i < 3 ==> |v[i].c| >= 1
    ensures multiset(LeastFirst(v)) == multiset(v)
  {
    assert v == [v[0], v[1], v[2]];
    SwapFront(v[0], v[1], v[2]);
    SwapEnds(v[0], v[1], v[2]);
  }

  lemma LastTwoOrderedPermutes(u: seq<Pt.Point>)
    requires |u| == 3 && forall i :: 0 <= i < 3 ==> |u[i].c| >= 1
    ensures multiset(LastTwoOrdered(u)) == multiset(u)
  {
    assert u == [u[0], u[1], u[2]];
    SwapBack(u[0], u[1], u[2]);
  }

  /** The swaps only reorder the vertices. */
  lemma XOrderedPermutes(v: seq<Pt.Point>)
    requires |v| == 3 && forall i :: 0 <= i < 3 ==> |v[i].c| >= 1
    ensures multiset(XOrdered(v)) == multiset(v)
  {
    LeastFirstPermutes(v);
    LastTwoOrderedPermutes(LeastFirst(v));
  }

  /** The draw order chosen from the edge gradients. */
  datatype LineOrder = AsDeclared | SwapSecondThird | SwapFirstThird

  /** The three edges v0→v1, v1→v2, v0→v2, reordered as `order` says. */
  function Lines<T>(w: seq<T>, order: LineOrder): (l: seq<(T, T)>)
    requires |w| == 3
    ensures |l| == 3
    ensures forall i :: 0 <= i < 3 ==> (l[i].0 == w[0] || l[i].0 == w[1]) && (l[i].1 == w[1] || l[i].1 == w[2])
  {
    var declared := [(w[0], w[1]), (w[1], w[2]), (w[0], w[2])];
    match order
    case AsDeclared => declared
    case SwapSecondThird => [declared[0], declared[2], declared[1]]
    case SwapFirstThird => [declared[2], declared[1], declared[0]]
  }

  /** Whatever the order, the three edges are each drawn once. */
  lemma LinesPermute<T>(w: seq<T>, order: LineOrder)
    requires |w| == 3
    ensures multiset(Lines(w, order)) == multiset{(w[0], w[1]), (w[1], w[2]), (w[0], w[2])}
  {
  }

  function EdgePoints(l: (Pt.Point, Pt.Point)): seq<Pt3>
    requires |l.0.c| >= 3 && |l.1.c| >= 3
  {
    LinePoints(CastPoint(l.0), CastPoint(l.1))
  }

  /** The vertex swaps of `From`, in place on a local copy. */
  method SortByX(v: seq<Pt.Point>) returns (w: seq<Pt.Point>)
    requires |v| == 3 && forall i :: 0 <= i < 3 ==> |v[i].c| >= 1
    ensures w == XOrdered(v)
  {
    w := v;
    if w[1].c[0] < w[0].c[0] && w[1].c[0] < w[2].c[0] {
      w := [w[1], w[0], w[2]];
    } else if w[2].c[0] < w[0].c[0] && w[2].c[0] < w[1].c[0] {
      w := [w[2], w[1], w[0]];
    }
    if w[2].c[0] < w[1].c[0] {
      w := [w[0], w[2], w[1]];
    }
  }

  /** Every one of the three edges stays within the n rows from ymin. */
  predicate EdgesFit(l: seq<(Pt.Point, Pt.Point)>, ymin: int, n: nat)
    requires |l| == 3 && forall i :: 0 <= i < 3 ==> |l[i].0.c| >= 3 && |l[i].1.c| >= 3
  {
    forall i :: 0 <= i < 3 ==> RowsIn(EdgePoints(l[i]), ymin, n)
  }

  /** The rows after drawing the three edges in turn. */
  function Bucket3(rows: seq<EdgeList>, l: seq<(Pt.Point, Pt.Point)>, ymin: int): (r: seq<EdgeList>)
    requires |l| == 3 && forall i :: 0 <= i < 3 ==> |l[i].0.c| >= 3 && |l[i].1.c| >= 3
    requires EdgesFit(l, ymin, |rows|)
    ensures |r| == |rows|
  {
    var r0 := Bucket(rows, EdgePoints(l[0]), ymin);
    var r1 := Bucket(r0, EdgePoints(l[1]), ymin);
    Bucket(r1, EdgePoints(l[2]), ymin)
  }

  /** One edge of the triangle stays within the rows from the truncated least Y to the
      truncated greatest Y. */
  lemma EdgeInTable(w: seq<Pt.Point>, order: LineOrder, i: nat)
    requires |w| == 3 && forall j :: 0 <= j < 3 ==> |w[j].c| == 4
    requires i < 3
    ensures var mm := MinMax(w[0].c[1], w[1].c[1], w[2].c[1]);
            CastI32(mm.0) <= CastI32(mm.1)
            && RowsIn(EdgePoints(Lines(w, order)[i]), CastI32(mm.0), CastI32(mm.1) - CastI32(mm.0) + 1)
  {
    var mm := MinMax(w[0].c[1], w[1].c[1], w[2].c[1]);
    var lo, hi := mm.0, mm.1;
    var e := Lines(w, order)[i];
    CastI32Monotone(lo, hi);
    CastI32Monotone(lo, e.0.c[1]);
    CastI32Monotone(e.0.c[1], hi);
    CastI32Monotone(lo, e.1.c[1]);
    CastI32Monotone(e.1.c[1], hi);
    LineRowsIn(CastPoint(e.0), CastPoint(e.1), CastI32(lo), CastI32(hi));
  }

  /** All three edges stay within the table `From` sizes. */
  lemma EdgesInTable(w: seq<Pt.Point>, order: LineOrder)
    requires |w| == 3 && forall j :: 0 <= j < 3 ==> |w[j].c| == 4
    ensures var mm := MinMax(w[0].c[1], w[1].c[1], w[2].c[1]);
            CastI32(mm.0) <= CastI32(mm.1)
            && EdgesFit(Lines(w, order), CastI32(mm.0), CastI32(mm.1) - CastI32(mm.0) + 1)
  {
    var mm := MinMax(w[0].c[1], w[1].c[1], w[2].c[1]);
    var l := Lines(w, order);
    EdgeInTable(w, order, 0);
    forall i | 0 <= i < 3 ensures RowsIn(EdgePoints(l[i]), CastI32(mm.0), CastI32(mm.1) - CastI32(mm.0) + 1) {
      EdgeInTable(w, order, i);
    }
  }

  /** `vec![EdgeList::new(); n]`. */
  function EmptyTable(n: nat): (r: seq<EdgeList>)
    ensures |r| == n && forall i :: 0 <= i < n ==> r[i] == NewList()
  {
    seq(n, _ => NewList())
  }

  /** The three `draw_line` calls of `From`, into the same table. */
  method DrawEdges(l: seq<(Pt.Point, Pt.Point)>, table: array<EdgeList>, ymin: int)
    requires |l| == 3 && forall i :: 0 <= i < 3 ==> |l[i].0.c| >= 3 && |l[i].1.c| >= 3
    requires EdgesFit(l, ymin, table.Length)
    modifies table
    ensures table[..] == Bucket3(old(table[..]), l, ymin)
  {
    ghost var t0 := table[..];
    var ok1 := DrawLine(l[0].0, l[0].1, table, ymin);
    ghost var t1 := table[..];
    assert t1 == Bucket(t0, EdgePoints(l[0]), ymin);
    var ok2 := DrawLine(l[1].0, l[1].1, table, ymin);
    ghost var t2 := table[..];
    assert t2 == Bucket(t1, EdgePoints(l[1]), ymin);
    var ok3 := DrawLine(l[2].0, l[2].1, table, ymin);
    assert table[..] == Bucket(t2, EdgePoints(l[2]), ymin);
  }

  /** `From<T: Polygonal> for EdgeTable`: order the vertices by X, size the table to the
      truncated Y range, and draw the three edges in the chosen order. No row is ever out
      of range, so no push panics. */
  method FromPolygon(v: seq<Pt.Point>, order: LineOrder) returns (t: EdgeTable)
    requires |v| == 3 && forall i :: 0 <= i < 3 ==> |v[i].c| == 4
    ensures var w := XOrdered(v);
            var mm := MinMax(w[0].c[1], w[1].c[1], w[2].c[1]);
            t.ymin == CastI32(mm.0) && t.ymax == CastI32(mm.1)
    ensures t.ymin <= t.ymax && |t.table| == t.ymax - t.ymin + 1
    ensures EdgesFit(Lines(XOrdered(v), order), t.ymin, |t.table|)
            && t.table == Bucket3(EmptyTable(|t.table|), Lines(XOrdered(v), order), t.ymin)
    ensures t.normal == V.Vector([0.0, 0.0, 0.0])
  {
    var w := SortByX(v);
    var mm := MinMax(w[0].c[1], w[1].c[1], w[2].c[1]);
    var ymin, ymax := CastI32(mm.0), CastI32(mm.1);
    var l := Lines(w, order);
    EdgesInTable(w, order);
    var rows: nat := ymax - ymin + 1;
    var table := new EdgeList[rows](_ => NewList());
    assert table[..] == EmptyTable(rows);
    DrawEdges(l, table, ymin);
    t := EdgeTable(table[..], ymin, ymax, V.Vector([0.0, 0.0, 0.0]));
  }
}
