// src/frame.rs: the wireframe renderer's `Frame`. It clears its RGBA frame to black
// inside a two-pixel white border, projects 3D line segments through its
// projection matrix into normalised device coordinates, keeps a segment only
// when both ends lie strictly inside the unit cube, and walks the segment on
// screen with the same integer line walk as src/pipeline.rs, painting green
// pixels without any depth test.

module Frame {
  import opened Numeric
  import opened Matrix
  import opened Bresenham
  import B = Buffer
  import S = Surface
  import Sh = Shapes
  import Pg = Polygonal
  import Pl = Pipeline
  import R = Rasterizer

  const White: seq<Byte> := [255, 255, 255, 255]
  const Black: seq<Byte> := [0, 0, 0, 255]
  const Green: seq<Byte> := [0, 255, 0, 255]

  // ------------------------------------------------------------ clear

  /** The colour `clear` gives the i-th pixel: x = i % width and y = i / width in u32,
      white on the two outermost rows and columns, black inside. `None` where the
      division by a zero width or `height - 2` panics; the conditions are evaluated left
      to right and stop at the first that holds. */
  function ClearColour(i: nat, w: nat, h: nat): (c: Option<seq<Byte>>)
    ensures c.Some? ==> c.value == White || c.value == Black
    ensures c.None? <==> w == 0 || (h < 2 && 1 < WrapU32(i) % w < w - 2 && 1 < WrapU32(i) / w)
  {
    if w == 0 then None
    else
      var x, y := WrapU32(i) % w, WrapU32(i) / w;
      if x <= 1 || x >= w - 2 || y <= 1 then Some(White)
      else if h < 2 then None
      else if y >= h - 2 then Some(White)
      else Some(Black)
  }

  /** Inside a frame of h rows of w pixels, the pixel at column x of row y is white exactly
      on the border two pixels wide, and `clear` never panics there. */
  lemma ClearBorder(x: nat, y: nat, w: nat, h: nat)
    requires x < w && y < h && y * w + x <= U32_MAX
    ensures ClearColour(y * w + x, w, h)
         == Some(if x <= 1 || x + 2 >= w || y <= 1 || y + 2 >= h then White else Black)
  {
    B.DivModUnique(y, x, w);
  }

  /** The first n pixels after `clear`'s loop, or `None` where it panics; bytes from the
      n-th pixel on are untouched (`chunks_exact_mut` also skips a trailing partial
      pixel). */
  function Cleared(buf: seq<Byte>, w: nat, h: nat, n: nat): (r: Option<seq<Byte>>)
    requires 4 * n <= |buf|
    ensures r.Some? ==> |r.value| == |buf|
    decreases n
  {
    if n == 0 then Some(buf)
    else
      match Cleared(buf, w, h, n - 1)
      case None => None
      case Some(b) =>
        match ClearColour(n - 1, w, h)
        case None => None
        case Some(c) => Some(B.Replace4(b, 4 * (n - 1), c))
  }

  lemma {:induction false} ClearedNoneStays(buf: seq<Byte>, w: nat, h: nat, m: nat, n: nat)
    requires m <= n && 4 * n <= |buf| && Cleared(buf, w, h, m).None?
    ensures Cleared(buf, w, h, n).None?
    decreases n
  {
    if m < n {
      ClearedNoneStays(buf, w, h, m, n - 1);
    }
  }

  /** `clear` panics exactly when some pixel's colour does. */
  lemma {:induction false} ClearedSomeIff(buf: seq<Byte>, w: nat, h: nat, n: nat)
    requires 4 * n <= |buf|
    ensures Cleared(buf, w, h, n).Some? <==> forall k :: 0 <= k < n ==> ClearColour(k, w, h).Some?
    decreases n
  {
    if n > 0 {
      ClearedSomeIff(buf, w, h, n - 1);
    }
  }

  /** Writing pixel n − 1 leaves the earlier pixels and the later bytes as they were. */
  lemma ReplaceLastPixel(b: seq<Byte>, n: nat, c: seq<Byte>, k: nat)
    requires 0 < n && 4 * n <= |b| && |c| == 4 && k < n - 1
    ensures B.Replace4(b, 4 * (n - 1), c)[4 * k..4 * k + 4] == b[4 * k..4 * k + 4]
  {
  }

  /** After `clear`, each of the first n pixels holds its colour and every later byte is
      unchanged. */
  lemma {:induction false} ClearedPixels(buf: seq<Byte>, w: nat, h: nat, n: nat)
    requires 4 * n <= |buf| && Cleared(buf, w, h, n).Some?
    ensures forall k :: 0 <= k < n ==> ClearColour(k, w, h) == Some(Cleared(buf, w, h, n).value[4 * k..4 * k + 4])
    ensures forall i :: 4 * n <= i < |buf| ==> Cleared(buf, w, h, n).value[i] == buf[i]
    decreases n
  {
    if n > 0 {
      ClearedPixels(buf, w, h, n - 1);
      var prev := Cleared(buf, w, h, n - 1).value;
      var c := ClearColour(n - 1, w, h).value;
      var r := Cleared(buf, w, h, n).value;
      assert r == B.Replace4(prev, 4 * (n - 1), c);
      ReplacePixel(prev, n, c);
    }
  }

  /** Writing pixel n − 1 puts c there and keeps the earlier pixels and the later bytes. */
  lemma ReplacePixel(b: seq<Byte>, n: nat, c: seq<Byte>)
    requires 0 < n && 4 * n <= |b| && |c| == 4
    ensures var r := B.Replace4(b, 4 * (n - 1), c);
            r[4 * (n - 1)..4 * n] == c
            && (forall k :: 0 <= k < n - 1 ==> r[4 * k..4 * k + 4] == b[4 * k..4 * k + 4])
            && forall i :: 4 * n <= i < |b| ==> r[i] == b[i]
  {
    var r := B.Replace4(b, 4 * (n - 1), c);
    assert r[4 * (n - 1)..4 * n] == c;
    forall k | 0 <= k < n - 1 ensures r[4 * k..4 * k + 4] == b[4 * k..4 * k + 4] {
      ReplaceLastPixel(b, n, c, k);
    }
  }

  /** On a frame of w·h pixels `clear` panics only for a zero width. */
  lemma ClearInFrame(i: nat, w: nat, h: nat)
    requires i < w * h && i <= U32_MAX
    ensures ClearColour(i, w, h).Some?
  {

  }

  // ------------------------------------------------------------ painting

  /** `draw_pixel`: the colour is copied unconditionally; `None` where the offset or the
      slice panics. */
  function Paint(buf: seq<Byte>, w: nat, h: nat, x: nat, y: nat, c: seq<Byte>): (r: Option<seq<Byte>>)
    requires |c| == 4
    ensures r.Some? <==> S.Fits(w, h, |buf|, x, y)
    ensures r.Some? ==> |r.value| == |buf|
  {
    var e := S.Element(w, h, x, y);
    if e.None? || e.value + 4 > |buf| then None else Some(B.Replace4(buf, e.value, c))
  }

  /** The pixels of a walk painted in order, each at `(x as u32, y as u32)`. */
  function Painted(buf: seq<Byte>, w: nat, h: nat, px: seq<Pixel>, c: seq<Byte>): (r: Option<seq<Byte>>)
    requires |c| == 4
    ensures r.Some? ==> |r.value| == |buf|
    decreases |px|
  {
    if |px| == 0 then Some(buf)
    else
      match Painted(buf, w, h, px[..|px| - 1], c)
      case None => None
      case Some(b) => Paint(b, w, h, WrapU32(px[|px| - 1].x), WrapU32(px[|px| - 1].y), c)
  }

  /** One more pixel of a walk. */
  lemma PaintedStep(buf: seq<Byte>, w: nat, h: nat, px: seq<Pixel>, k: nat, c: seq<Byte>, b: seq<Byte>, x: int, y: int)
    requires |c| == 4 && k < |px| && Painted(buf, w, h, px[..k], c) == Some(b) && px[k] == Pixel(x, y)
    ensures Painted(buf, w, h, px[..k + 1], c) == Paint(b, w, h, WrapU32(x), WrapU32(y), c)
  {
    assert px[..k + 1][..k] == px[..k];
  }

  lemma {:induction false} PaintedNoneStays(buf: seq<Byte>, w: nat, h: nat, px: seq<Pixel>, c: seq<Byte>, m: nat)
    requires |c| == 4 && m <= |px| && Painted(buf, w, h, px[..m], c).None?
    ensures Painted(buf, w, h, px, c).None?
    decreases |px|
  {
    if m < |px| {
      assert px[..|px| - 1][..m] == px[..m];
      PaintedNoneStays(buf, w, h, px[..|px| - 1], c, m);
    } else {
      assert px[..m] == px;
    }
  }

  /** A walk panics exactly when one of its pixels cannot be addressed. */
  lemma {:induction false} PaintedSomeIff(buf: seq<Byte>, w: nat, h: nat, px: seq<Pixel>, c: seq<Byte>)
    requires |c| == 4
    ensures Painted(buf, w, h, px, c).Some?
        <==> forall k :: 0 <= k < |px| ==> S.Fits(w, h, |buf|, WrapU32(px[k].x), WrapU32(px[k].y))
    decreases |px|
  {
    if |px| > 0 {
      var init := px[..|px| - 1];
      PaintedSomeIff(buf, w, h, init, c);
      assert forall k :: 0 <= k < |init| ==> init[k] == px[k];
    }
  }

  /** Two pixel offsets are multiples of four, so their byte ranges are equal or apart. */
  lemma AlignedApart(e: nat, f: nat)
    requires e % 4 == 0 && f % 4 == 0 && e != f
    ensures e + 4 <= f || f + 4 <= e
  {
    assert e == 4 * (e / 4) && f == 4 * (f / 4);
    assert e / 4 != f / 4;
  }

  /** A pixel already in colour c keeps it when c is painted anywhere. */
  lemma PaintKeeps(b: seq<Byte>, w: nat, h: nat, x: nat, y: nat, c: seq<Byte>, e: nat)
    requires |c| == 4 && Paint(b, w, h, x, y, c).Some? && e % 4 == 0 && e + 4 <= |b| && b[e..e + 4] == c
    ensures Paint(b, w, h, x, y, c).value[e..e + 4] == c
  {
    var f := S.Element(w, h, x, y).value;
    if f != e {
      AlignedApart(e, f);
      assert Paint(b, w, h, x, y, c).value[e..e + 4] == b[e..e + 4];
    }
  }

  /** The slot of a walk's k-th pixel. */
  function Slot(w: nat, h: nat, p: Pixel): Option<nat>
  {
    S.Element(w, h, WrapU32(p.x), WrapU32(p.y))
  }

  /** After a walk is painted, every pixel of it shows the colour, whatever the order
      in which the walk visited its pixels. */
  lemma {:induction false} PaintedCovers(buf: seq<Byte>, w: nat, h: nat, px: seq<Pixel>, c: seq<Byte>)
    requires |c| == 4 && Painted(buf, w, h, px, c).Some?
    ensures forall k :: 0 <= k < |px| ==>
              (Slot(w, h, px[k]).Some? && Slot(w, h, px[k]).value + 4 <= |buf|
               && Painted(buf, w, h, px, c).value[Slot(w, h, px[k]).value..Slot(w, h, px[k]).value + 4] == c)
    decreases |px|
  {
    if |px| > 0 {
      var init := px[..|px| - 1];
      PaintedCovers(buf, w, h, init, c);
      var b := Painted(buf, w, h, init, c).value;
      var p := px[|px| - 1];
      var r := Painted(buf, w, h, px, c).value;
      forall k | 0 <= k < |px|
        ensures Slot(w, h, px[k]).Some? && Slot(w, h, px[k]).value + 4 <= |buf|
                && r[Slot(w, h, px[k]).value..Slot(w, h, px[k]).value + 4] == c
      {
        if k < |px| - 1 {
          assert init[k] == px[k];
          PaintKeeps(b, w, h, WrapU32(p.x), WrapU32(p.y), c, Slot(w, h, px[k]).value);
        }
      }
    }
  }

  /** Painting writes nothing but the colour: every byte keeps its old value or takes
      the colour's byte for its channel. */
  predicate OnlyColour(s: seq<Byte>, t: seq<Byte>, c: seq<Byte>)
    requires |c| == 4
  {
    |t| == |s| && forall i :: 0 <= i < |s| ==> t[i] == s[i] || t[i] == c[i % 4]
  }

  lemma {:induction false} PaintedOnlyColour(buf: seq<Byte>, w: nat, h: nat, px: seq<Pixel>, c: seq<Byte>)
    requires |c| == 4 && Painted(buf, w, h, px, c).Some?
    ensures OnlyColour(buf, Painted(buf, w, h, px, c).value, c)
    decreases |px|
  {
    if |px| > 0 {
      PaintedOnlyColour(buf, w, h, px[..|px| - 1], c);
      var b := Painted(buf, w, h, px[..|px| - 1], c).value;
      var r := Painted(buf, w, h, px, c).value;
      var e := Slot(w, h, px[|px| - 1]).value;
      forall i | 0 <= i < |buf| ensures r[i] == buf[i] || r[i] == c[i % 4] {
        if e <= i < e + 4 {
          Pg.ChannelOfOffset(e, i);
        }
      }
    }
  }

  // ------------------------------------------------------------ lines

  /** The pixels `draw_line_2d` visits for integer endpoints. The swap at the start of
      each branch binds the exchanged endpoints only inside its own block, so the loop
      still runs over `x1..x2` (or `y1..y2`), which is empty when the endpoints arrive
      in reverse order. */
  function FrameLine(x1: int, y1: int, x2: int, y2: int): (px: seq<Pixel>)
  {
    if Abs(x2 - x1) > Abs(y2 - y1) then
      if x1 > x2 then [] else XWalk(x1, y1, x2, y2)
    else if y1 > y2 then [] else YWalk(x1, y1, x2, y2)
  }

  /** The endpoints arrive in order along the driving axis. */
  predicate InOrder(x1: int, y1: int, x2: int, y2: int)
  {
    if Abs(x2 - x1) > Abs(y2 - y1) then x1 <= x2 else y1 <= y2
  }

  /** In order, the frame draws exactly the pixels of the pipeline's `draw_line`; in
      reverse order it draws nothing, although the pipeline's walk for the same segment
      has one pixel per unit of the driving distance. */
  lemma FrameLineAsWritten(x1: int, y1: int, x2: int, y2: int)
    ensures InOrder(x1, y1, x2, y2) ==> FrameLine(x1, y1, x2, y2) == Pl.LinePixels(x1, y1, x2, y2)
    ensures !InOrder(x1, y1, x2, y2) ==>
              FrameLine(x1, y1, x2, y2) == [] && FrameLine(x2, y2, x1, y1) == Pl.LinePixels(x1, y1, x2, y2)
              && |Pl.LinePixels(x1, y1, x2, y2)| == Max(Abs(x2 - x1), Abs(y2 - y1))
  {
    assert Abs(x1 - x2) == Abs(x2 - x1) && Abs(y1 - y2) == Abs(y2 - y1);
  }

  /** `draw_line_2d` on a `Line` of points: the coordinates are cast with `as i32`. */
  function Line2DPixels(l: Sh.Line<Sh.Point>): seq<Pixel>
  {
    FrameLine(CastI32(l.a.p0), CastI32(l.a.p1), CastI32(l.b.p0), CastI32(l.b.p1))
  }

  /** The perspective divide of one end: all four coordinates are divided by w. A zero w
      gives infinities or NaN in f32, which fail the view test, so it is `None` here. */
  function Ndc(p: Sh.Point): (r: Option<Sh.Point>)
    ensures r.Some? ==> p.p3 != 0.0 && r.value.p3 == 1.0
    ensures r.Some? ==> r.value.p0 * p.p3 == p.p0 && r.value.p1 * p.p3 == p.p1 && r.value.p2 * p.p3 == p.p2
  {
    if p.p3 == 0.0 then None else Some(Sh.Point(p.p0 / p.p3, p.p1 / p.p3, p.p2 / p.p3, p.p3 / p.p3))
  }

  /** Strictly inside the unit cube on x, y and z. */
  predicate InView(p: Sh.Point)
  {
    -1.0 < p.p0 < 1.0 && -1.0 < p.p1 < 1.0 && -1.0 < p.p2 < 1.0
  }

  /** NDC to screen: x and y scaled from [−1, 1] to [0, width] and [0, height]. */
  function ToScreen(p: Sh.Point, w: nat, h: nat): Sh.Point
  {
    Sh.Point(NdcToScreen(p.p0, w), NdcToScreen(p.p1, h), 0.0, 1.0)
  }

  /** The view test of `draw_line_3d` on the two divided ends, then the screen line. */
  function Gated(a: Option<Sh.Point>, b: Option<Sh.Point>, w: nat, h: nat): seq<Pixel>
  {
    if a.Some? && b.Some? && InView(a.value) && InView(b.value) then
      Line2DPixels(Sh.Line(ToScreen(a.value, w, h), ToScreen(b.value, w, h)))
    else []
  }

  /** The pixels `draw_line_3d` paints: none unless both projected ends are in view. */
  function Line3DPixels(l: Sh.Line<Sh.Point>, m: Mat, w: nat, h: nat): seq<Pixel>
    requires Shape(m, 4, 4)
  {
    Gated(Ndc(Sh.TransformToCopy(l.a, m)), Ndc(Sh.TransformToCopy(l.b, m)), w, h)
  }

  /** `as i32` of a value strictly between 0 and n ≤ i32::MAX lies in [0, n). */
  lemma CastBelow(s: real, n: nat)
    requires 0.0 < s < n as real && n <= I32_MAX
    ensures 0 <= CastI32(s) < n
  {
    var f := s.Floor;
    assert f as real <= s;
    assert f as real < n as real;
  }

  /** A coordinate strictly inside (−1, 1) lands on a screen column in [0, size). */
  lemma ScreenCoordinate(c: real, size: nat)
    requires -1.0 < c < 1.0 && 0 < size <= I32_MAX
    ensures 0 <= CastI32(NdcToScreen(c, size)) < size
  {
    ScaleInside(c, size);
    CastBelow(NdcToScreen(c, size), size);
  }

  /** A point in view lands on the screen. */
  lemma ScreenPoint(p: Sh.Point, w: nat, h: nat)
    requires InView(p) && 0 < w <= I32_MAX && 0 < h <= I32_MAX
    ensures 0 <= CastI32(ToScreen(p, w, h).p0) < w && 0 <= CastI32(ToScreen(p, w, h).p1) < h
  {
    ScreenCoordinate(p.p0, w);
    ScreenCoordinate(p.p1, h);
  }

  /** Every pixel of a line away from the frame's edges: the walk stays in the box
      spanned by its endpoints. */
  lemma FrameLineInBox(x1: int, y1: int, x2: int, y2: int, w: nat, h: nat, k: nat)
    requires 0 <= x1 < w && 0 <= x2 < w && 0 <= y1 < h && 0 <= y2 < h
    requires k < |FrameLine(x1, y1, x2, y2)|
    ensures 0 <= FrameLine(x1, y1, x2, y2)[k].x < w && 0 <= FrameLine(x1, y1, x2, y2)[k].y < h
  {
    if Abs(x2 - x1) > Abs(y2 - y1) {
      XWalkWithin(x1, y1, x2, y2, k);
    } else {
      YWalkWithin(x1, y1, x2, y2, k);
    }
  }

  lemma GatedOnScreen(a: Option<Sh.Point>, b: Option<Sh.Point>, w: nat, h: nat)
    requires 0 < w <= I32_MAX && 0 < h <= I32_MAX
    ensures forall k :: 0 <= k < |Gated(a, b, w, h)| ==> 0 <= Gated(a, b, w, h)[k].x < w && 0 <= Gated(a, b, w, h)[k].y < h
  {
    if a.Some? && b.Some? && InView(a.value) && InView(b.value) {
      var p, q := ToScreen(a.value, w, h), ToScreen(b.value, w, h);
      ScreenPoint(a.value, w, h);
      ScreenPoint(b.value, w, h);
      var x1, y1, x2, y2 := CastI32(p.p0), CastI32(p.p1), CastI32(q.p0), CastI32(q.p1);
      assert 0 <= x1 < w && 0 <= x2 < w && 0 <= y1 < h && 0 <= y2 < h;
      var px := FrameLine(x1, y1, x2, y2);
      assert Gated(a, b, w, h) == px;
      forall k | 0 <= k < |px| ensures 0 <= px[k].x < w && 0 <= px[k].y < h {
        FrameLineInBox(x1, y1, x2, y2, w, h, k);
      }
    }
  }

  /** The view test keeps a projected segment on screen: every pixel `draw_line_3d`
      paints has 0 ≤ x < width and 0 ≤ y < height. */
  lemma Line3DOnScreen(l: Sh.Line<Sh.Point>, m: Mat, w: nat, h: nat)
    requires Shape(m, 4, 4) && 0 < w <= I32_MAX && 0 < h <= I32_MAX
    ensures forall k :: 0 <= k < |Line3DPixels(l, m, w, h)| ==>
              0 <= Line3DPixels(l, m, w, h)[k].x < w && 0 <= Line3DPixels(l, m, w, h)[k].y < h
  {
    GatedOnScreen(Ndc(Sh.TransformToCopy(l.a, m)), Ndc(Sh.TransformToCopy(l.b, m)), w, h);
  }

  // ------------------------------------------------------------ the frame

  /** `Frame`: the size, the RGBA frame of the pixel buffer and the projection. */
  class Frame {
    var width: nat
    var height: nat
    var frame: array<Byte>
    var projection: Mat

    /** A frame of the given size with a zeroed buffer; the projection, which `new`
        derives from the field of view and the clip planes, is given. */
    constructor (w: nat, h: nat, projection: Mat)
      requires Shape(projection, 4, 4)
      ensures width == w && height == h && this.projection == projection && fresh(frame)
      ensures frame.Length == w * h * 4 && forall i :: 0 <= i < frame.Length ==> frame[i] == 0
    {
      width, height, this.projection := w, h, projection;
      frame := new Byte[w * h * 4](_ => 0);
    }

    /** `clear`; `ok` is false where it panics. */
    method Clear() returns (ok: bool)
      modifies frame
      ensures var r := Cleared(old(frame[..]), width, height, frame.Length / 4);
              (ok <==> r.Some?) && (ok ==> frame[..] == r.value)
    {
      ghost var buf0 := frame[..];
      var n := frame.Length / 4;
      for i := 0 to n
        invariant Cleared(buf0, width, height, i) == Some(frame[..])
      {
        if width == 0 {
          ClearedNoneStays(buf0, width, height, i + 1, n);
          return false;
        }
        var x, y := WrapU32(i) % width, WrapU32(i) / width;
        var c;
        if x <= 1 || x >= width - 2 || y <= 1 {
          c := White;
        } else if height < 2 {
          ClearedNoneStays(buf0, width, height, i + 1, n);
          return false;
        } else if y >= height - 2 {
          c := White;
        } else {
          c := Black;
        }
        S.Put4(frame, 4 * i, c);
      }
      ok := true;
    }

    /** `draw_pixel`; `ok` is false where it panics, and then nothing has changed. */
    method DrawPixel(x: nat, y: nat, c: seq<Byte>) returns (ok: bool)
      requires |c| == 4
      modifies frame
      ensures var r := Paint(old(frame[..]), width, height, x, y, c);
              (ok <==> r.Some?) && (ok ==> frame[..] == r.value) && (!ok ==> frame[..] == old(frame[..]))
    {
      var e := S.Element(width, height, x, y);
      if e.None? || e.value + 4 > frame.Length {
        return false;
      }
      S.Put4(frame, e.value, c);
      return true;
    }

    /** `draw_pixel` on pixel k of a walk whose first k pixels are painted: either the
        first k + 1 are then painted, or the walk panics. */
    method PaintNext(ghost buf0: seq<Byte>, ghost px: seq<Pixel>, ghost k: nat, x: int, y: int) returns (ok: bool)
      requires k < |px| && px[k] == Pixel(x, y)
      requires Painted(buf0, width, height, px[..k], Green) == Some(frame[..])
      modifies frame
      ensures ok ==> Painted(buf0, width, height, px[..k + 1], Green) == Some(frame[..])
      ensures !ok ==> Painted(buf0, width, height, px, Green).None?
    {
      PaintedStep(buf0, width, height, px, k, Green, frame[..], x, y);
      ok := DrawPixel(WrapU32(x), WrapU32(y), Green);
      if !ok {
        PaintedNoneStays(buf0, width, height, px, Green, k + 1);
      }
    }

    /** The X-driven loop of `draw_line_2d` over `x1..x2`. */
    method WalkX(x1: int, y1: int, x2: int, y2: int) returns (ok: bool)
      requires x1 <= x2
      modifies frame
      ensures var r := Painted(old(frame[..]), width, height, XWalk(x1, y1, x2, y2), Green);
              (ok <==> r.Some?) && (ok ==> frame[..] == r.value)
    {
      ghost var buf0 := frame[..];
      ghost var px := XWalk(x1, y1, x2, y2);
      var dx, dy := x2 - x1, Abs(y2 - y1);
      var incDec := if y1 > y2 then -1 else 1;
      var accumulated := 2 * (dy as int) - dx;
      var y := y1;
      for x := x1 to x2
        invariant y == Minor(y1, y2, x - x1, dx, dy) && accumulated == R.Steps(x - x1, dx, dy).1
        invariant Painted(buf0, width, height, px[..x - x1], Green) == Some(frame[..])
      {
        XWalkAt(x1, y1, x2, y2, x - x1, x, y);
        ok := PaintNext(buf0, px, x - x1, x, y);
        if !ok {
          return;
        }
        y, accumulated := Advance(y1, y2, x - x1, dx, dy, y, accumulated, incDec);
      }
      assert px[..x2 - x1] == px;
      ok := true;
    }

    /** The Y-driven loop of `draw_line_2d` over `y1..y2`. */
    method WalkY(x1: int, y1: int, x2: int, y2: int) returns (ok: bool)
      requires y1 <= y2
      modifies frame
      ensures var r := Painted(old(frame[..]), width, height, YWalk(x1, y1, x2, y2), Green);
              (ok <==> r.Some?) && (ok ==> frame[..] == r.value)
    {
      ghost var buf0 := frame[..];
      ghost var px := YWalk(x1, y1, x2, y2);
      var dx, dy := Abs(x2 - x1), y2 - y1;
      var incDec := if x1 > x2 then -1 else 1;
      var accumulated := 2 * (dx as int) - dy;
      var x := x1;
      for y := y1 to y2
        invariant x == Minor(x1, x2, y - y1, dy, dx) && accumulated == R.Steps(y - y1, dy, dx).1
        invariant Painted(buf0, width, height, px[..y - y1], Green) == Some(frame[..])
      {
        YWalkAt(x1, y1, x2, y2, y - y1, x, y);
        ok := PaintNext(buf0, px, y - y1, x, y);
        if !ok {
          return;
        }
        x, accumulated := Advance(x1, x2, y - y1, dy, dx, x, accumulated, incDec);
      }
      assert px[..y2 - y1] == px;
      ok := true;
    }

    /** `draw_line_2d`; `ok` is false where a pixel write panics. */
    method DrawLine2D(l: Sh.Line<Sh.Point>) returns (ok: bool)
      modifies frame
      ensures var r := Painted(old(frame[..]), width, height, Line2DPixels(l), Green);
              (ok <==> r.Some?) && (ok ==> frame[..] == r.value)
    {
      var x1, y1 := CastI32(l.a.p0), CastI32(l.a.p1);
      var x2, y2 := CastI32(l.b.p0), CastI32(l.b.p1);
      if Abs(x2 - x1) > Abs(y2 - y1) {
        // the swapped endpoints go out of scope at once, and `x1..x2` is then empty
        if x1 <= x2 {
          ok := WalkX(x1, y1, x2, y2);
        } else {
          ok := true;
        }
      } else {
        if y1 <= y2 {
          ok := WalkY(x1, y1, x2, y2);
        } else {
          ok := true;
        }
      }
    }

    /** `draw_line_3d`: project both ends, divide by w, and draw the segment on screen
        only when both ends are in view. */
    method DrawLine3D(l: Sh.Line<Sh.Point>) returns (ok: bool)
      requires Shape(projection, 4, 4)
      modifies frame
      ensures var r := Painted(old(frame[..]), width, height, Line3DPixels(l, projection, width, height), Green);
              (ok <==> r.Some?) && (ok ==> frame[..] == r.value)
    {
      var a := Ndc(Sh.TransformToCopy(l.a, projection));
      var b := Ndc(Sh.TransformToCopy(l.b, projection));
      if a.Some? && b.Some? && InView(a.value) && InView(b.value) {
        ok := DrawLine2D(Sh.Line(ToScreen(a.value, width, height), ToScreen(b.value, width, height)));
      } else {
        ok := true;
      }
    }

    /** `resize`: the new size is recorded; the buffer keeps its resolution. */
    method Resize(w: nat, h: nat)
      modifies this
      ensures width == w && height == h
      ensures frame == old(frame) && projection == old(projection) && frame[..] == old(frame[..])
    {
      width, height := w, h;
    }
  }
}
