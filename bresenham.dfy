// The two-axis integer line walk of src/pipeline.rs (`draw_line`) and
// src/frame.rs (`draw_line_2d`): the driving coordinate runs over a half-open
// range, one unit per step, and the minor coordinate follows a gain
// accumulator that starts at 2·dm − da, pays 2·da whenever it is positive and
// earns 2·dm every step.  The accumulator is the one the three-axis DDA of
// src/rasterizer.rs uses, so its step counts are `Rasterizer.Steps`.

module Bresenham {
  import opened Numeric
  import R = Rasterizer

  /** `inc_dec`: −1 when the minor coordinate has to fall, else 1. */
  function Inc(m1: int, m2: int): int
  {
    if m1 > m2 then -1 else 1
  }

  /** The minor coordinate after k driving steps. */
  function Minor(m1: int, m2: int, k: nat, da: nat, dm: nat): int
  {
    m1 + Inc(m1, m2) * R.Offset(k, da, dm)
  }

  /** A visited pixel. */
  datatype Pixel = Pixel(x: int, y: int)

  /** The X-driven walk from (sx, sy) toward (ex, ey): x runs over [sx, ex). */
  function XWalk(sx: int, sy: int, ex: int, ey: int): (w: seq<Pixel>)
    requires sx <= ex
    ensures |w| == ex - sx
  {
    var n := ex - sx;
    seq(n, k requires 0 <= k < n => Pixel(sx + k, Minor(sy, ey, k, n, Abs(ey - sy))))
  }

  /** The Y-driven walk from (sx, sy) toward (ex, ey): y runs over [sy, ey). */
  function YWalk(sx: int, sy: int, ex: int, ey: int): (w: seq<Pixel>)
    requires sy <= ey
    ensures |w| == ey - sy
  {
    var n := ey - sy;
    seq(n, k requires 0 <= k < n => Pixel(Minor(sx, ex, k, n, Abs(ex - sx)), sy + k))
  }

  /** The k-th pixel of an X-driven walk, for a loop that tracks the minor coordinate. */
  lemma XWalkAt(sx: int, sy: int, ex: int, ey: int, k: nat, x: int, y: int)
    requires sx <= ex && k < ex - sx && x == sx + k && y == Minor(sy, ey, k, ex - sx, Abs(ey - sy))
    ensures XWalk(sx, sy, ex, ey)[k] == Pixel(x, y)
  {
  }

  /** The k-th pixel of a Y-driven walk. */
  lemma YWalkAt(sx: int, sy: int, ex: int, ey: int, k: nat, x: int, y: int)
    requires sy <= ey && k < ey - sy && y == sy + k && x == Minor(sx, ex, k, ey - sy, Abs(ex - sx))
    ensures YWalk(sx, sy, ex, ey)[k] == Pixel(x, y)
  {
  }

  /** One loop iteration on the minor axis: a positive gain moves the coordinate one
      unit and pays 2·da; then the gain earns 2·dm. */
  lemma MinorStep(m1: int, m2: int, k: nat, da: nat, dm: nat, m: int, g: int)
    requires m == Minor(m1, m2, k, da, dm) && g == R.Steps(k, da, dm).1
    ensures g > 0 ==> (m + Inc(m1, m2) == Minor(m1, m2, k + 1, da, dm)
                       && g - 2 * da + 2 * dm == R.Steps(k + 1, da, dm).1)
    ensures g <= 0 ==> (m == Minor(m1, m2, k + 1, da, dm) && g + 2 * dm == R.Steps(k + 1, da, dm).1)
  {
    var o := R.Steps(k, da, dm).0;
    if g > 0 {
      assert R.Offset(k + 1, da, dm) == o + 1;
      assert Inc(m1, m2) * (o + 1) == Inc(m1, m2) * o + Inc(m1, m2);
    }
  }

  /** The loop's update of the minor coordinate and the accumulator: `if accumulated > 0`
      the coordinate moves by `inc_dec` and the accumulator pays 2·da, then it earns 2·dm. */
  method Advance(m1: int, m2: int, ghost k: nat, da: nat, dm: nat, m: int, g: int, inc: int) returns (m': int, g': int)
    requires m == Minor(m1, m2, k, da, dm) && g == R.Steps(k, da, dm).1 && inc == Inc(m1, m2)
    ensures m' == Minor(m1, m2, k + 1, da, dm) && g' == R.Steps(k + 1, da, dm).1
  {
    MinorStep(m1, m2, k, da, dm, m, g);
    m', g' := m, g;
    if g' > 0 {
      m' := m' + inc;
      g' := g' - 2 * da;
    }
    g' := g' + 2 * dm;
  }

  /** Along a walk of da steps toward a minor distance dm ≤ da, the minor coordinate
      stays between its endpoints, moves by at most one per step, and is the nearest
      grid value to the ideal line: 2·da·|m − m1| lies in [2·dm·k − da, 2·dm·k + da). */
  lemma MinorTracksLine(m1: int, m2: int, k: nat, da: nat)
    requires Abs(m2 - m1) <= da && k <= da
    ensures var m := Minor(m1, m2, k, da, Abs(m2 - m1));
            R.Lo(m1, m2) <= m <= R.Hi(m1, m2)
            && (da > 0 ==> 2 * Abs(m2 - m1) * k - da <= 2 * da * Abs(m - m1) < 2 * Abs(m2 - m1) * k + da)
    ensures Abs(Minor(m1, m2, k + 1, da, Abs(m2 - m1)) - Minor(m1, m2, k, da, Abs(m2 - m1))) <= 1
  {
    var dm := Abs(m2 - m1);
    R.OffsetNearIdeal(k, da, dm);
    R.OffsetStep(k, da, dm);
    var o := R.Offset(k, da, dm);
    var o1 := R.Offset(k + 1, da, dm);
    assert Abs(Minor(m1, m2, k, da, dm) - m1) == o;
    assert o1 == o || o1 == o + 1;
  }

  /** The k-th pixel of an X-driven walk lies in the box spanned by the endpoints, and the
      next pixel is a neighbour of it. */
  lemma XWalkWithin(sx: int, sy: int, ex: int, ey: int, k: nat)
    requires sx <= ex && Abs(ey - sy) <= ex - sx && k < ex - sx
    ensures var p := XWalk(sx, sy, ex, ey)[k];
            sx <= p.x < ex && R.Lo(sy, ey) <= p.y <= R.Hi(sy, ey)
    ensures k + 1 < ex - sx ==>
            Abs(XWalk(sx, sy, ex, ey)[k + 1].y - XWalk(sx, sy, ex, ey)[k].y) <= 1
  {
    MinorTracksLine(sy, ey, k, ex - sx);
  }

  /** The same for a Y-driven walk. */
  lemma YWalkWithin(sx: int, sy: int, ex: int, ey: int, k: nat)
    requires sy <= ey && Abs(ex - sx) <= ey - sy && k < ey - sy
    ensures var p := YWalk(sx, sy, ex, ey)[k];
            sy <= p.y < ey && R.Lo(sx, ex) <= p.x <= R.Hi(sx, ex)
    ensures k + 1 < ey - sy ==>
            Abs(YWalk(sx, sy, ex, ey)[k + 1].x - YWalk(sx, sy, ex, ey)[k].x) <= 1
  {
    MinorTracksLine(sx, ex, k, ey - sy);
  }
}
