// src/window.rs: `GraphicsWindow` draws rasterised edge tables into the RGBA
// frame of its pixel buffer. A filled polygon is shaded green by the z part of
// its normal, and the alpha byte of every pixel serves as a depth buffer: a
// pixel is written only when the new alpha is strictly greater than the stored
// one. A wireframe draws the table's own crossings in red.

module Window {
  import opened Numeric
  import B = Buffer
  import R = Rasterizer
  import Pg = Polygonal
  import Pr = Primitives
  import S = Surface

  /** `DrawType`. */
  datatype DrawType = Wireframe | Fill | Both

  // ------------------------------------------------------------ one pixel

  /** `draw_pixel` on the frame bytes: `None` where the offset or the slice panics;
      otherwise the colour is copied only when its alpha exceeds the stored one. */
  function Shaded(buf: seq<Byte>, w: nat, h: nat, x: nat, y: nat, c: seq<Byte>): (r: Option<seq<Byte>>)
    requires |c| == 4
    ensures r.Some? <==> S.Fits(w, h, |buf|, x, y)
    ensures r.Some? ==> |r.value| == |buf|
  {
    var e := S.Element(w, h, x, y);
    if e.None? || e.value + 4 > |buf| then None
    else if c[3] > buf[e.value + 3] then Some(B.Replace4(buf, e.value, c))
    else Some(buf)
  }

  /** What `draw_pixel` does to the frame bytes b, giving b': it panics (ok false, nothing
      written) exactly where the pixel cannot be addressed, and otherwise shades it. */
  predicate PixelDrawn(b: seq<Byte>, w: nat, h: nat, x: nat, y: nat, c: seq<Byte>, ok: bool, b': seq<Byte>)
    requires |c| == 4
  {
    (ok <==> S.Fits(w, h, |b|, x, y))
    && (ok ==> b' == Shaded(b, w, h, x, y, c).value)
    && (!ok ==> b' == b)
  }

  /** The alpha byte of the pixel that byte i belongs to. */
  function AlphaOf(i: nat): (a: nat)
    ensures a % 4 == 3 && i <= a < i + 4
  {
    i - i % 4 + 3
  }

  /** t is s after depth-tested writes: no alpha byte fell, and a byte changed only where
      the alpha of its pixel strictly rose. */
  predicate Deeper(s: seq<Byte>, t: seq<Byte>)
  {
    |t| == |s|
    && (forall i :: 0 <= i < |s| && i % 4 == 3 ==> s[i] <= t[i])
    && (forall i :: 0 <= i < |s| && t[i] != s[i] ==> AlphaOf(i) < |s| && s[AlphaOf(i)] < t[AlphaOf(i)])
  }

  lemma DeeperTransitive(s: seq<Byte>, t: seq<Byte>, u: seq<Byte>)
    requires Deeper(s, t) && Deeper(t, u)
    ensures Deeper(s, u)
  {
    forall i | 0 <= i < |s| && u[i] != s[i]
      ensures AlphaOf(i) < |s| && s[AlphaOf(i)] < u[AlphaOf(i)]
    {
      var a := AlphaOf(i);
      if t[i] != s[i] {
        assert a < |s| && s[a] < t[a];
        assert t[a] <= u[a];
      } else {
        assert a < |s| && t[a] < u[a];
        assert s[a] <= t[a];
      }
    }
  }

  /** Copying a colour of greater alpha over an aligned pixel moves the frame toward
      greater alpha. */
  lemma Replace4Deeper(buf: seq<Byte>, e: nat, c: seq<Byte>)
    requires e % 4 == 0 && e + 4 <= |buf| && |c| == 4 && c[3] > buf[e + 3]
    ensures Deeper(buf, B.Replace4(buf, e, c))
  {
    var r := B.Replace4(buf, e, c);
    forall i | 0 <= i < |buf| && i % 4 == 3
      ensures buf[i] <= r[i]
    {
      if e <= i < e + 4 {
        Pg.ChannelOfOffset(e, i);
        assert i == e + 3;
      }
    }
    forall i | 0 <= i < |buf| && r[i] != buf[i]
      ensures AlphaOf(i) < |buf| && buf[AlphaOf(i)] < r[AlphaOf(i)]
    {
      Pg.ChannelOfOffset(e, i);
      assert AlphaOf(i) == e + 3;
    }
  }

  /** The alpha rule: a pixel whose stored alpha is smaller receives the whole colour,
      any other pixel write changes nothing. */
  lemma ShadedRule(buf: seq<Byte>, w: nat, h: nat, x: nat, y: nat, c: seq<Byte>)
    requires |c| == 4 && Shaded(buf, w, h, x, y, c).Some?
    ensures var e := S.Element(w, h, x, y).value;
            var r := Shaded(buf, w, h, x, y, c).value;
            (c[3] > buf[e + 3] ==> r[e..e + 4] == c) && (c[3] <= buf[e + 3] ==> r == buf)
  {
  }

  /** Each pixel write moves the frame toward greater alpha. */
  lemma ShadedDeeper(buf: seq<Byte>, w: nat, h: nat, x: nat, y: nat, c: seq<Byte>)
    requires |c| == 4 && Shaded(buf, w, h, x, y, c).Some?
    ensures Deeper(buf, Shaded(buf, w, h, x, y, c).value)
  {
    var e := S.Element(w, h, x, y).value;
    if c[3] > buf[e + 3] {
      Replace4Deeper(buf, e, c);
    }
  }

  // ------------------------------------------------------------ fill

  /** `((-normal.z + 1.0) * 127.0) as u8`: the green intensity of a polygon. */
  function Intensity(nz: real): Byte
  {
    CastU8((-nz + 1.0) * 127.0) as Byte
  }

  /** A normal facing the camera (z = −1) is brightest, one facing away (z = 1) is black,
      and the intensity never rises as the normal turns away. */
  lemma IntensityRange(nz: real, nz2: real)
    ensures Intensity(-1.0) == 254 && Intensity(1.0) == 0
    ensures -1.0 <= nz <= 1.0 ==> Intensity(nz) <= 254
    ensures nz <= nz2 ==> Intensity(nz2) <= Intensity(nz)
  {
    assert (-(-1.0) + 1.0) * 127.0 == 254.0;
    assert (-(1.0) + 1.0) * 127.0 == 0.0;
    if nz <= nz2 {
      assert TruncTowardZero((-nz2 + 1.0) * 127.0) <= TruncTowardZero((-nz + 1.0) * 127.0);
    }
  }

  /** The fill colour at depth z: `[0, intensity, 0, z as u8]`. */
  function Shade(g: Byte, z: real): (c: seq<Byte>)
    ensures |c| == 4
  {
    [0, g, 0, CastU8(z) as Byte]
  }

  /** `x as u32` for the k-th pixel of a span from x0. */
  function Column(x0: int, k: nat): nat
  {
    WrapU32(x0 + k)
  }

  /** The first n pixels of a span from x0 along row y: pixel k goes to
      `(x0 + k) as u32` with the depth reached after k increments of zstep (`DepthAt`) as its alpha. */
  function Span(buf: seq<Byte>, w: nat, h: nat, x0: int, y: int, z0: real, zstep: real, n: nat, g: Byte)
    : (r: Option<seq<Byte>>)
    ensures r.Some? ==> |r.value| == |buf|
    decreases n
  {
    if n == 0 then Some(buf)
    else
      match Span(buf, w, h, x0, y, z0, zstep, n - 1, g)
      case None => None
      case Some(b) => Shaded(b, w, h, Column(x0, n - 1), WrapU32(y), Shade(g, Pg.DepthAt(z0, zstep, n - 1)))
  }

  /** One more pixel of a span. */
  lemma SpanStep(buf: seq<Byte>, w: nat, h: nat, x0: int, y: int, z0: real, zstep: real, n: nat, g: Byte,
                  b: seq<Byte>, x: int, z: real)
    requires Span(buf, w, h, x0, y, z0, zstep, n, g) == Some(b)
    requires x == x0 + n && z == Pg.DepthAt(z0, zstep, n)
    ensures Span(buf, w, h, x0, y, z0, zstep, n + 1, g) == Shaded(b, w, h, WrapU32(x), WrapU32(y), Shade(g, z))
    ensures z + zstep == Pg.DepthAt(z0, zstep, n + 1)
  {
    assert Column(x0, n) == WrapU32(x);
    assert Shade(g, Pg.DepthAt(z0, zstep, n)) == Shade(g, z);
  }

  /** Pixels k..n-1 of the span drawn onto buf in order: what the loop still has to do
      once it has drawn the first k. */
  function SpanRest(buf: seq<Byte>, w: nat, h: nat, x0: int, y: int, z0: real, zstep: real, k: nat, n: nat, g: Byte)
    : Option<seq<Byte>>
    decreases n - k
  {
    if k >= n then Some(buf)
    else
      match Shaded(buf, w, h, Column(x0, k), WrapU32(y), Shade(g, Pg.DepthAt(z0, zstep, k)))
      case None => None
      case Some(b) => SpanRest(b, w, h, x0, y, z0, zstep, k + 1, n, g)
  }

  /** A span of n pixels is its first k pixels followed by the rest. */
  lemma {:induction false} SpanComposes(buf: seq<Byte>, w: nat, h: nat, x0: int, y: int, z0: real, zstep: real, k: nat, n: nat, g: Byte)
    requires k <= n
    ensures var first := Span(buf, w, h, x0, y, z0, zstep, k, g);
            Span(buf, w, h, x0, y, z0, zstep, n, g)
              == if first.None? then None else SpanRest(first.value, w, h, x0, y, z0, zstep, k, n, g)
    decreases n - k
  {
    if k < n {
      SpanComposes(buf, w, h, x0, y, z0, zstep, k + 1, n, g);
    }
  }

  /** The pixel `draw_pixel` writes, or the panic it raises, is the next step of the rest
      of the span. */
  lemma SpanRestStep(b: seq<Byte>, w: nat, h: nat, x0: int, y: int, z0: real, zstep: real, k: nat, n: nat, g: Byte,
                     z: real, ok: bool, b': seq<Byte>)
    requires k < n && z == Pg.DepthAt(z0, zstep, k)
    requires PixelDrawn(b, w, h, WrapU32(x0 + k), WrapU32(y), Shade(g, z), ok, b')
    ensures SpanRest(b, w, h, x0, y, z0, zstep, k, n, g)
         == if ok then SpanRest(b', w, h, x0, y, z0, zstep, k + 1, n, g) else None
    ensures z + zstep == Pg.DepthAt(z0, zstep, k + 1)
  {
  }

  lemma {:induction false} SpanNoneStays(buf: seq<Byte>, w: nat, h: nat, x0: int, y: int, z0: real, zstep: real, m: nat, n: nat, g: Byte)
    requires m <= n && Span(buf, w, h, x0, y, z0, zstep, m, g).None?
    ensures Span(buf, w, h, x0, y, z0, zstep, n, g).None?
    decreases n
  {
    if m < n {
      SpanNoneStays(buf, w, h, x0, y, z0, zstep, m, n - 1, g);
    }
  }

  /** A span panics exactly when one of its pixels cannot be addressed. */
  lemma {:induction false} SpanSomeIff(buf: seq<Byte>, w: nat, h: nat, x0: int, y: int, z0: real, zstep: real, n: nat, g: Byte)
    ensures Span(buf, w, h, x0, y, z0, zstep, n, g).Some?
        <==> forall k :: 0 <= k < n ==> S.Fits(w, h, |buf|, Column(x0, k), WrapU32(y))
    decreases n
  {
    if n > 0 {
      SpanSomeIff(buf, w, h, x0, y, z0, zstep, n - 1, g);
      var prev := Span(buf, w, h, x0, y, z0, zstep, n - 1, g);
      if prev.Some? {
        assert Span(buf, w, h, x0, y, z0, zstep, n, g).Some?
           <==> S.Fits(w, h, |buf|, Column(x0, n - 1), WrapU32(y));
      }
    }
  }

  lemma {:induction false} SpanDeeper(buf: seq<Byte>, w: nat, h: nat, x0: int, y: int, z0: real, zstep: real, n: nat, g: Byte)
    requires Span(buf, w, h, x0, y, z0, zstep, n, g).Some?
    ensures Deeper(buf, Span(buf, w, h, x0, y, z0, zstep, n, g).value)
    decreases n
  {
    if n > 0 {
      SpanDeeper(buf, w, h, x0, y, z0, zstep, n - 1, g);
      var b := Span(buf, w, h, x0, y, z0, zstep, n - 1, g).value;
      ShadedDeeper(b, w, h, Column(x0, n - 1), WrapU32(y), Shade(g, Pg.DepthAt(z0, zstep, n - 1)));
      DeeperTransitive(buf, b, Span(buf, w, h, x0, y, z0, zstep, n, g).value);
    }
  }

  /** The number of pixels of `edges[0].x..edges[1].x`. */
  function SpanLength(a: R.XZPair, b: R.XZPair): nat
  {
    if b.x > a.x then b.x - a.x else 0
  }

  /** `dz as f32 / dx as f32`; it is read only when the span has a pixel, so dx > 0. */
  function ZStep(a: R.XZPair, b: R.XZPair): real
  {
    if b.x > a.x then (b.z - a.z) as real / (b.x - a.x) as real else 0.0
  }

  /** One scanline of the fill: a list without edges is reported and skipped. */
  function FillRow(buf: seq<Byte>, w: nat, h: nat, l: R.EdgeList, y: int, g: Byte): (r: Option<seq<Byte>>)
    ensures r.Some? ==> |r.value| == |buf|
  {
    match R.GetEdges(l)
    case Err(_) => Some(buf)
    case Ok(e) => Span(buf, w, h, e.0.x, y, e.0.z as real, ZStep(e.0, e.1), SpanLength(e.0, e.1), g)
  }

  /** Every pixel of the scanline's span can be addressed. */
  predicate RowFits(w: nat, h: nat, len: nat, l: R.EdgeList, y: int)
  {
    |l.list| > 0 ==>
      var a, b := l.list[0], l.list[|l.list| - 1];
      forall k :: 0 <= k < SpanLength(a, b) ==> S.Fits(w, h, len, Column(a.x, k), WrapU32(y))
  }

  /** The fill of the first |rows| scanlines, row k at y = ymin + k. */
  function FillRows(buf: seq<Byte>, w: nat, h: nat, rows: seq<R.EdgeList>, ymin: int, g: Byte): (r: Option<seq<Byte>>)
    ensures r.Some? ==> |r.value| == |buf|
    decreases |rows|
  {
    if |rows| == 0 then Some(buf)
    else
      match FillRows(buf, w, h, rows[..|rows| - 1], ymin, g)
      case None => None
      case Some(b) => FillRow(b, w, h, rows[|rows| - 1], ymin + |rows| - 1, g)
  }

  lemma {:induction false} FillRowsNoneStays(buf: seq<Byte>, w: nat, h: nat, rows: seq<R.EdgeList>, ymin: int, g: Byte, m: nat)
    requires m <= |rows| && FillRows(buf, w, h, rows[..m], ymin, g).None?
    ensures FillRows(buf, w, h, rows, ymin, g).None?
    decreases |rows|
  {
    if m < |rows| {
      assert rows[..|rows| - 1][..m] == rows[..m];
      FillRowsNoneStays(buf, w, h, rows[..|rows| - 1], ymin, g, m);
    } else {
      assert rows[..m] == rows;
    }
  }

  /** The fill panics exactly when some scanline's span has a pixel that cannot be
      addressed. */
  lemma FillRowsSomeIff(buf: seq<Byte>, w: nat, h: nat, rows: seq<R.EdgeList>, ymin: int, g: Byte)
    ensures FillRows(buf, w, h, rows, ymin, g).Some?
        <==> forall k :: 0 <= k < |rows| ==> RowFits(w, h, |buf|, rows[k], ymin + k)
  {
    if FillRows(buf, w, h, rows, ymin, g).Some? {
      FillRowsFit(buf, w, h, rows, ymin, g);
    } else if forall k :: 0 <= k < |rows| ==> RowFits(w, h, |buf|, rows[k], ymin + k) {
      FitRowsFill(buf, w, h, rows, ymin, g);
    }
  }

  lemma {:induction false} FillRowsFit(buf: seq<Byte>, w: nat, h: nat, rows: seq<R.EdgeList>, ymin: int, g: Byte)
    requires FillRows(buf, w, h, rows, ymin, g).Some?
    ensures forall k :: 0 <= k < |rows| ==> RowFits(w, h, |buf|, rows[k], ymin + k)
    decreases |rows|
  {
    if |rows| > 0 {
      var init := rows[..|rows| - 1];
      FillRowsFit(buf, w, h, init, ymin, g);
      var prev := FillRows(buf, w, h, init, ymin, g).value;
      FillRowSomeIff(prev, w, h, rows[|rows| - 1], ymin + |rows| - 1, g);
      forall k | 0 <= k < |rows| ensures RowFits(w, h, |buf|, rows[k], ymin + k) {
        if k < |init| {
          assert rows[k] == init[k];
        }
      }
    }
  }

  lemma {:induction false} FitRowsFill(buf: seq<Byte>, w: nat, h: nat, rows: seq<R.EdgeList>, ymin: int, g: Byte)
    requires forall k :: 0 <= k < |rows| ==> RowFits(w, h, |buf|, rows[k], ymin + k)
    ensures FillRows(buf, w, h, rows, ymin, g).Some?
    decreases |rows|
  {
    if |rows| > 0 {
      var init := rows[..|rows| - 1];
      forall k | 0 <= k < |init| ensures RowFits(w, h, |buf|, init[k], ymin + k) {
        assert init[k] == rows[k];
      }
      FitRowsFill(buf, w, h, init, ymin, g);
      var prev := FillRows(buf, w, h, init, ymin, g).value;
      FillRowSomeIff(prev, w, h, rows[|rows| - 1], ymin + |rows| - 1, g);
    }
  }

  /** One scanline panics exactly when its span has a pixel that cannot be addressed. */
  lemma FillRowSomeIff(buf: seq<Byte>, w: nat, h: nat, l: R.EdgeList, y: int, g: Byte)
    ensures FillRow(buf, w, h, l, y, g).Some? <==> RowFits(w, h, |buf|, l, y)
  {
    if |l.list| > 0 {
      var a, b := l.list[0], l.list[|l.list| - 1];
      SpanSomeIff(buf, w, h, a.x, y, a.z as real, ZStep(a, b), SpanLength(a, b), g);
    }
  }

  lemma FillRowDeeper(buf: seq<Byte>, w: nat, h: nat, l: R.EdgeList, y: int, g: Byte)
    requires FillRow(buf, w, h, l, y, g).Some?
    ensures Deeper(buf, FillRow(buf, w, h, l, y, g).value)
  {
    if |l.list| > 0 {
      var a, b := l.list[0], l.list[|l.list| - 1];
      SpanDeeper(buf, w, h, a.x, y, a.z as real, ZStep(a, b), SpanLength(a, b), g);
    }
  }

  lemma {:induction false} FillRowsDeeper(buf: seq<Byte>, w: nat, h: nat, rows: seq<R.EdgeList>, ymin: int, g: Byte)
    requires FillRows(buf, w, h, rows, ymin, g).Some?
    ensures Deeper(buf, FillRows(buf, w, h, rows, ymin, g).value)
    decreases |rows|
  {
    if |rows| > 0 {
      var init := rows[..|rows| - 1];
      FillRowsLast(buf, w, h, rows, ymin, g);
      FillRowsDeeper(buf, w, h, init, ymin, g);
      var b := FillRows(buf, w, h, init, ymin, g).value;
      FillRowAfterDeeper(buf, b, w, h, rows[|rows| - 1], ymin + |rows| - 1, g);
    }
  }

  /** A fill that completes is the fill of all but the last scanline followed by the last. */
  lemma FillRowsLast(buf: seq<Byte>, w: nat, h: nat, rows: seq<R.EdgeList>, ymin: int, g: Byte)
    requires |rows| > 0 && FillRows(buf, w, h, rows, ymin, g).Some?
    ensures FillRows(buf, w, h, rows[..|rows| - 1], ymin, g).Some?
    ensures FillRows(buf, w, h, rows, ymin, g)
         == FillRow(FillRows(buf, w, h, rows[..|rows| - 1], ymin, g).value, w, h, rows[|rows| - 1], ymin + |rows| - 1, g)
  {
  }

  lemma FillRowAfterDeeper(buf: seq<Byte>, b: seq<Byte>, w: nat, h: nat, l: R.EdgeList, y: int, g: Byte)
    requires Deeper(buf, b) && FillRow(b, w, h, l, y, g).Some?
    ensures Deeper(buf, FillRow(b, w, h, l, y, g).value)
  {
    FillRowDeeper(b, w, h, l, y, g);
    DeeperTransitive(buf, b, FillRow(b, w, h, l, y, g).value);
  }

  // ------------------------------------------------------------ wireframe

  const Red: seq<Byte> := [255, 0, 0, 255]

  /** A crossing is drawn when `0 <= x < width as i32`. */
  predicate Visible(p: R.XZPair, w: nat)
  {
    0 <= p.x < WrapI32(w)
  }

  /** The first |ps| crossings of one scanline of the wireframe. */
  function WireRow(buf: seq<Byte>, w: nat, h: nat, ps: seq<R.XZPair>, y: int): (r: Option<seq<Byte>>)
    ensures r.Some? ==> |r.value| == |buf|
    decreases |ps|
  {
    if |ps| == 0 then Some(buf)
    else
      match WireRow(buf, w, h, ps[..|ps| - 1], y)
      case None => None
      case Some(b) =>
        var p := ps[|ps| - 1];
        if Visible(p, w) then Shaded(b, w, h, WrapU32(p.x), WrapU32(y), Red) else Some(b)
  }

  lemma {:induction false} WireRowNoneStays(buf: seq<Byte>, w: nat, h: nat, ps: seq<R.XZPair>, y: int, m: nat)
    requires m <= |ps| && WireRow(buf, w, h, ps[..m], y).None?
    ensures WireRow(buf, w, h, ps, y).None?
    decreases |ps|
  {
    if m < |ps| {
      assert ps[..|ps| - 1][..m] == ps[..m];
      WireRowNoneStays(buf, w, h, ps[..|ps| - 1], y, m);
    } else {
      assert ps[..m] == ps;
    }
  }

  /** A wireframe scanline panics exactly when one of its visible crossings cannot be
      addressed; crossings left or right of the window are skipped. */
  lemma {:induction false} WireRowSomeIff(buf: seq<Byte>, w: nat, h: nat, ps: seq<R.XZPair>, y: int)
    ensures WireRow(buf, w, h, ps, y).Some?
        <==> forall k :: 0 <= k < |ps| && Visible(ps[k], w) ==> S.Fits(w, h, |buf|, ps[k].x, WrapU32(y))
    decreases |ps|
  {
    if |ps| > 0 {
      var init := ps[..|ps| - 1];
      WireRowSomeIff(buf, w, h, init, y);
      assert forall k :: 0 <= k < |init| ==> init[k] == ps[k];
    }
  }

  lemma {:induction false} WireRowDeeper(buf: seq<Byte>, w: nat, h: nat, ps: seq<R.XZPair>, y: int)
    requires WireRow(buf, w, h, ps, y).Some?
    ensures Deeper(buf, WireRow(buf, w, h, ps, y).value)
    decreases |ps|
  {
    if |ps| > 0 {
      WireRowDeeper(buf, w, h, ps[..|ps| - 1], y);
      var b := WireRow(buf, w, h, ps[..|ps| - 1], y).value;
      var p := ps[|ps| - 1];
      if Visible(p, w) {
        ShadedDeeper(b, w, h, WrapU32(p.x), WrapU32(y), Red);
      }
      DeeperTransitive(buf, b, WireRow(buf, w, h, ps, y).value);
    }
  }

  /** The wireframe of the first |rows| scanlines, row k at y = ymin + k. */
  function WireRows(buf: seq<Byte>, w: nat, h: nat, rows: seq<R.EdgeList>, ymin: int): (r: Option<seq<Byte>>)
    ensures r.Some? ==> |r.value| == |buf|
    decreases |rows|
  {
    if |rows| == 0 then Some(buf)
    else
      match WireRows(buf, w, h, rows[..|rows| - 1], ymin)
      case None => None
      case Some(b) => WireRow(b, w, h, rows[|rows| - 1].list, ymin + |rows| - 1)
  }

  lemma {:induction false} WireRowsNoneStays(buf: seq<Byte>, w: nat, h: nat, rows: seq<R.EdgeList>, ymin: int, m: nat)
    requires m <= |rows| && WireRows(buf, w, h, rows[..m], ymin).None?
    ensures WireRows(buf, w, h, rows, ymin).None?
    decreases |rows|
  {
    if m < |rows| {
      assert rows[..|rows| - 1][..m] == rows[..m];
      WireRowsNoneStays(buf, w, h, rows[..|rows| - 1], ymin, m);
    } else {
      assert rows[..m] == rows;
    }
  }

  lemma {:induction false} WireRowsDeeper(buf: seq<Byte>, w: nat, h: nat, rows: seq<R.EdgeList>, ymin: int)
    requires WireRows(buf, w, h, rows, ymin).Some?
    ensures Deeper(buf, WireRows(buf, w, h, rows, ymin).value)
    decreases |rows|
  {
    if |rows| > 0 {
      WireRowsDeeper(buf, w, h, rows[..|rows| - 1], ymin);
      var b := WireRows(buf, w, h, rows[..|rows| - 1], ymin).value;
      WireRowDeeper(b, w, h, rows[|rows| - 1].list, ymin + |rows| - 1);
      DeeperTransitive(buf, b, WireRows(buf, w, h, rows, ymin).value);
    }
  }

  // ------------------------------------------------------------ a polygon

  /** `draw_polygon`: the fill pass first when the style asks for it, then the
      wireframe pass. */
  function Drawn(buf: seq<Byte>, w: nat, h: nat, t: R.EdgeTable, style: DrawType): (r: Option<seq<Byte>>)
    requires |t.normal.c| == 3
    ensures r.Some? ==> |r.value| == |buf|
  {
    var filled := if style != Wireframe then FillRows(buf, w, h, t.table, t.ymin, Intensity(t.normal.c[2]))
                  else Some(buf);
    match filled
    case None => None
    case Some(b) => if style != Fill then WireRows(b, w, h, t.table, t.ymin) else Some(b)
  }

  /** Drawing a polygon is depth-tested throughout: whatever the style, no pixel's alpha
      falls and a pixel changes only where its alpha rose. A wireframe-only draw leaves
      every scanline without visible crossings untouched. */
  lemma DrawnDeeper(buf: seq<Byte>, w: nat, h: nat, t: R.EdgeTable, style: DrawType)
    requires |t.normal.c| == 3 && Drawn(buf, w, h, t, style).Some?
    ensures Deeper(buf, Drawn(buf, w, h, t, style).value)
  {
    var g := Intensity(t.normal.c[2]);
    var b := buf;
    if style != Wireframe {
      FillRowsDeeper(buf, w, h, t.table, t.ymin, g);
      b := FillRows(buf, w, h, t.table, t.ymin, g).value;
    }
    if style != Fill {
      WireRowsDeeper(b, w, h, t.table, t.ymin);
      DeeperTransitive(buf, b, WireRows(b, w, h, t.table, t.ymin).value);
    }
  }

  // ------------------------------------------------------------ the window

  /** `GraphicsWindow`: the size, the frame of the pixel buffer and the projection. */
  class GraphicsWindow {
    var width: nat
    var height: nat
    var frame: array<Byte>
    var projection: Pr.TransformMatrix

    /** The pixel buffer holds width·height pixels of four bytes. */
    predicate Valid()
      reads this
    {
      frame.Length == width * height * 4 && Pr.WellFormed(projection)
    }

    /** A window of the given size with a zeroed frame; the projection, which `new`
        derives from the field of view and the clip planes, is given. */
    constructor (w: nat, h: nat, projection: Pr.TransformMatrix)
      requires Pr.WellFormed(projection)
      ensures width == w && height == h && this.projection == projection && Valid() && fresh(frame)
      ensures forall i :: 0 <= i < frame.Length ==> frame[i] == 0
    {
      width, height, this.projection := w, h, projection;
      frame := new Byte[w * h * 4](_ => 0);
    }

    /** `clear`: every byte of the frame becomes zero. */
    method Clear()
      modifies frame
      ensures forall i :: 0 <= i < frame.Length ==> frame[i] == 0
    {
      for i := 0 to frame.Length
        invariant forall j :: 0 <= j < i ==> frame[j] == 0
      {
        frame[i] := 0;
      }
    }

    /** `draw_pixel`; `ok` is false where it panics, and then nothing has changed. */
    method DrawPixel(x: nat, y: nat, c: seq<Byte>) returns (ok: bool)
      requires |c| == 4
      modifies frame
      ensures PixelDrawn(old(frame[..]), width, height, x, y, c, ok, frame[..])
    {
      var e := S.Element(width, height, x, y);
      if e.None? || e.value + 4 > frame.Length {
        return false;
      }
      if c[3] > frame[e.value + 3] {
        S.Put4(frame, e.value, c);
      }
      return true;
    }

    /** The inner loop of the fill: `x` runs over n pixels from x0 while `z` climbs by
        zstep. */
    method FillSpan(x0: int, n: nat, y: int, z0: real, zstep: real, g: Byte) returns (ok: bool)
      modifies frame
      ensures var r := Span(old(frame[..]), width, height, x0, y, z0, zstep, n, g);
              (ok <==> r.Some?) && (ok ==> frame[..] == r.value)
    {
      ghost var buf0 := frame[..];
      ghost var w, h := width, height;
      SpanComposes(buf0, w, h, x0, y, z0, zstep, 0, n, g);
      var z := z0;
      for k := 0 to n
        invariant z == Pg.DepthAt(z0, zstep, k)
        invariant Span(buf0, w, h, x0, y, z0, zstep, n, g) == SpanRest(frame[..], w, h, x0, y, z0, zstep, k, n, g)
      {
        ghost var before := frame[..];
        ok := DrawPixel(WrapU32(x0 + k), WrapU32(y), Shade(g, z));
        SpanRestStep(before, w, h, x0, y, z0, zstep, k, n, g, z, ok, frame[..]);
        if !ok {
          return;
        }
        z := z + zstep;
      }
      ok := true;
    }

    /** One scanline of the fill pass. */
    method FillLine(l: R.EdgeList, y: int, g: Byte) returns (ok: bool)
      modifies frame
      ensures var r := FillRow(old(frame[..]), width, height, l, y, g);
              (ok <==> r.Some?) && (ok ==> frame[..] == r.value)
    {
      match R.GetEdges(l)
      case Ok(e) =>
        ok := FillSpan(e.0.x, SpanLength(e.0, e.1), y, e.0.z as real, ZStep(e.0, e.1), g);
      case Err(_) =>
        ok := true;
    }

    /** The fill pass of `draw_polygon`: scanline k is drawn at y = ymin + k. */
    method FillPass(rows: seq<R.EdgeList>, ymin: int, g: Byte) returns (ok: bool)
      modifies frame
      ensures var r := FillRows(old(frame[..]), width, height, rows, ymin, g);
              (ok <==> r.Some?) && (ok ==> frame[..] == r.value)
    {
      ghost var buf0 := frame[..];
      var y := ymin;
      for k := 0 to |rows|
        invariant y == ymin + k
        invariant FillRows(buf0, width, height, rows[..k], ymin, g) == Some(frame[..])
      {
        assert rows[..k + 1][..k] == rows[..k];
        ok := FillLine(rows[k], y, g);
        if !ok {
          FillRowsNoneStays(buf0, width, height, rows, ymin, g, k + 1);
          return;
        }
        y := y + 1;
      }
      assert rows[..|rows|] == rows;
      ok := true;
    }

    /** One scanline of the wireframe pass: the crossings inside the window's width. */
    method WireLine(ps: seq<R.XZPair>, y: int) returns (ok: bool)
      modifies frame
      ensures var r := WireRow(old(frame[..]), width, height, ps, y);
              (ok <==> r.Some?) && (ok ==> frame[..] == r.value)
    {
      ghost var buf0 := frame[..];
      for j := 0 to |ps|
        invariant WireRow(buf0, width, height, ps[..j], y) == Some(frame[..])
      {
        assert ps[..j + 1][..j] == ps[..j];
        if 0 <= ps[j].x < WrapI32(width) {
          ok := DrawPixel(WrapU32(ps[j].x), WrapU32(y), Red);
          if !ok {
            WireRowNoneStays(buf0, width, height, ps, y, j + 1);
            return;
          }
        }
      }
      assert ps[..|ps|] == ps;
      ok := true;
    }

    /** The wireframe pass of `draw_polygon`. */
    method WirePass(rows: seq<R.EdgeList>, ymin: int) returns (ok: bool)
      modifies frame
      ensures var r := WireRows(old(frame[..]), width, height, rows, ymin);
              (ok <==> r.Some?) && (ok ==> frame[..] == r.value)
    {
      ghost var buf0 := frame[..];
      var y := ymin;
      for k := 0 to |rows|
        invariant y == ymin + k
        invariant WireRows(buf0, width, height, rows[..k], ymin) == Some(frame[..])
      {
        assert rows[..k + 1][..k] == rows[..k];
        ok := WireLine(rows[k].list, y);
        if !ok {
          WireRowsNoneStays(buf0, width, height, rows, ymin, k + 1);
          return;
        }
        y := y + 1;
      }
      assert rows[..|rows|] == rows;
      ok := true;
    }

    /** `draw_polygon`: `ok` is false where a pixel write panics. */
    method DrawPolygon(t: R.EdgeTable, style: DrawType) returns (ok: bool)
      requires |t.normal.c| == 3
      modifies frame
      ensures var r := Drawn(old(frame[..]), width, height, t, style);
              (ok <==> r.Some?) && (ok ==> frame[..] == r.value)
    {
      var g := Intensity(t.normal.c[2]);
      if style == Fill || style == Both {
        ok := FillPass(t.table, t.ymin, g);
        if !ok {
          return;
        }
      }
      if style == Wireframe || style == Both {
        ok := WirePass(t.table, t.ymin);
        if !ok {
          return;
        }
      }
      ok := true;
    }
  }
}
