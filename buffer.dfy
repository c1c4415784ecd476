// src/buffer.rs: a flat RGBA pixel buffer addressed with the origin at the
// bottom-left, and a flat depth buffer addressed row by row from the top,
// initialised to the far sentinel `usize::MAX`.

module Buffer {
  import opened Numeric

  /** `Color([u8; 4])`. */
  datatype Color = Color(bytes: seq<Byte>)

  /** `Color::as_slice`: the four colour bytes, in order. */
  function AsSlice(c: Color): (s: seq<Byte>)
    requires |c.bytes| == 4
    ensures |s| == 4 && forall k :: 0 <= k < 4 ==> s[k] == c.bytes[k]
  {
    c.bytes
  }

  /** `Index<(usize, usize)> for PixelBuffer`: the first byte of pixel (x, y) is
      ((height − 1 − y)·width + x)·4; `height − 1 − y` underflows, and panics, once
      y ≥ height. */
  function PixelOffset(width: nat, height: nat, x: nat, y: nat): (o: Option<nat>)
    ensures o.Some? <==> y < height
  {
    if y < height then Some(((height - 1 - y) * width + x) * 4) else None
  }

  /** `Index<(usize, usize)> for ZBuffer`: element x + y·width, with no vertical flip. */
  function DepthOffset(width: nat, x: nat, y: nat): nat
  {
    x + y * width
  }

  lemma MulBound(a: nat, b: nat, c: nat)
    requires a < b
    ensures a * c + c <= b * c
  {
    assert (b - a) * c >= c by {
      assert b - a >= 1;
    }
  }

  lemma DivModUnique(q: nat, r: nat, w: nat)
    requires r < w
    ensures (q * w + r) / w == q && (q * w + r) % w == r
  {
    var a := q * w + r;
    var d := a / w - q;
    assert a == (a / w) * w + a % w;
    assert d * w == (a / w) * w - q * w;
    assert d * w == r - a % w;
  }

  /** Inside the screen the four pixel bytes lie in a buffer of width·height·4 bytes, and
      the offset decodes back to stored row `height − 1 − y` and column `x`: the origin is
      the bottom-left. */
  lemma PixelOffsetInBounds(width: nat, height: nat, x: nat, y: nat)
    requires x < width && y < height
    ensures PixelOffset(width, height, x, y).Some?
    ensures PixelOffset(width, height, x, y).value + 4 <= width * height * 4
    ensures PixelOffset(width, height, x, y).value % 4 == 0
    ensures PixelOffset(width, height, x, y).value / 4 / width == height - 1 - y
    ensures PixelOffset(width, height, x, y).value / 4 % width == x
  {
    var p := (height - 1 - y) * width + x;
    MulBound(height - 1 - y, height, width);
    DivModUnique(height - 1 - y, x, width);
    assert PixelOffset(width, height, x, y).value == p * 4;
    assert p * 4 / 4 == p;
  }

  /** Inside the screen the depth slot lies in a buffer of width·height entries and
      decodes back to row y and column x. */
  lemma DepthOffsetInBounds(width: nat, height: nat, x: nat, y: nat)
    requires x < width && y < height
    ensures DepthOffset(width, x, y) < width * height
    ensures DepthOffset(width, x, y) / width == y && DepthOffset(width, x, y) % width == x
  {
    MulBound(y, height, width);
    DivModUnique(y, x, width);
  }

  /** Distinct screen positions never share a depth slot, and their four-byte pixels never
      overlap. */
  lemma OffsetsInjective(width: nat, height: nat, x1: nat, y1: nat, x2: nat, y2: nat)
    requires x1 < width && y1 < height && x2 < width && y2 < height && (x1, y1) != (x2, y2)
    ensures DepthOffset(width, x1, y1) != DepthOffset(width, x2, y2)
    ensures PixelOffset(width, height, x1, y1).value / 4 != PixelOffset(width, height, x2, y2).value / 4
  {
    DepthOffsetInBounds(width, height, x1, y1);
    DepthOffsetInBounds(width, height, x2, y2);
    PixelOffsetInBounds(width, height, x1, y1);
    PixelOffsetInBounds(width, height, x2, y2);
  }

  /** The column is not range-checked: x = width addresses the first pixel of the row
      above, which is stored immediately after. */
  lemma ColumnOverflowsIntoNextRow(width: nat, height: nat, y: nat)
    requires 0 < y < height
    ensures PixelOffset(width, height, width, y) == PixelOffset(width, height, 0, y - 1)
  {
    assert (height - 1 - y) * width + width == (height - 1 - (y - 1)) * width;
  }

  /** The slice of `s` with four bytes at `o` replaced by `c`. */
  function Replace4(s: seq<Byte>, o: nat, c: seq<Byte>): (r: seq<Byte>)
    requires o + 4 <= |s| && |c| == 4
    ensures |r| == |s|
    ensures forall i :: 0 <= i < |s| ==> r[i] == if o <= i < o + 4 then c[i - o] else s[i]
  {
    s[..o] + c + s[o + 4..]
  }

  /** `PixelBuffer`. */
  class PixelBuffer {
    var width: nat
    var height: nat
    var data: array<Byte>

    predicate Valid()
      reads this
    {
      data.Length == width * height * 4
    }

    /** `PixelBuffer::new`: width·height·4 bytes, all zero. */
    constructor (w: nat, h: nat)
      ensures width == w && height == h && Valid() && fresh(data)
      ensures forall i :: 0 <= i < data.Length ==> data[i] == 0
    {
      width := w;
      height := h;
      data := new Byte[w * h * 4](_ => 0);
    }

    /** `ScreenBuffer::size`. */
    function Size(): (r: (nat, nat))
      reads this
      ensures r.0 == width && r.1 == height
    {
      (width, height)
    }

    /** `pixel_buffer[(x, y)]`: the four bytes of the pixel, or `None` where the index
        panics (the row underflows or the slice runs past the end). */
    function At(x: nat, y: nat): (r: Option<seq<Byte>>)
      reads this, data
      ensures r.Some? <==> (PixelOffset(width, height, x, y).Some?
                            && PixelOffset(width, height, x, y).value + 4 <= data.Length)
      ensures r.Some? ==> (|r.value| == 4 && forall k :: 0 <= k < 4 ==>
                           r.value[k] == data[PixelOffset(width, height, x, y).value + k])
    {
      var o := PixelOffset(width, height, x, y);
      if o.Some? && o.value + 4 <= data.Length then Some(data[o.value..o.value + 4]) else None
    }

    /** `pixel_buffer[(x, y)].copy_from_slice(colour.as_slice())`. */
    method Write(x: nat, y: nat, c: Color) returns (ok: bool)
      requires |c.bytes| == 4
      modifies data
      ensures ok <==> old(At(x, y)).Some?
      ensures ok ==> data[..] == Replace4(old(data[..]), PixelOffset(width, height, x, y).value, AsSlice(c))
      ensures !ok ==> data[..] == old(data[..])
    {
      var o := PixelOffset(width, height, x, y);
      if o.None? || o.value + 4 > data.Length {
        return false;
      }
      var bytes := AsSlice(c);
      for k := 0 to 4
        invariant forall i :: 0 <= i < data.Length ==>
          data[i] == if o.value <= i < o.value + k then bytes[i - o.value] else old(data[i])
      {
        data[o.value + k] := bytes[k];
      }
      ok := true;
    }
  }

  /** `ZBuffer`. */
  class ZBuffer {
    var width: nat
    var height: nat
    var data: array<nat>

    predicate Valid()
      reads this
    {
      data.Length == width * height
    }

    /** `ZBuffer::new`: width·height entries, all the far sentinel `usize::MAX`. */
    constructor (w: nat, h: nat)
      ensures width == w && height == h && Valid() && fresh(data)
      ensures forall i :: 0 <= i < data.Length ==> data[i] == USIZE_MAX
    {
      width := w;
      height := h;
      data := new nat[w * h](_ => USIZE_MAX);
    }

    /** `z_buffer[(x, y)]`, or `None` past the end. */
    function At(x: nat, y: nat): (r: Option<nat>)
      reads this, data
      ensures r.Some? <==> DepthOffset(width, x, y) < data.Length
      ensures r.Some? ==> r.value == data[DepthOffset(width, x, y)]
    {
      var o := DepthOffset(width, x, y);
      if o < data.Length then Some(data[o]) else None
    }

    /** `z_buffer[(x, y)] = z`. */
    method Write(x: nat, y: nat, z: nat) returns (ok: bool)
      modifies data
      ensures ok <==> DepthOffset(width, x, y) < data.Length
      ensures ok ==> data[..] == old(data[..])[DepthOffset(width, x, y) := z]
      ensures !ok ==> data[..] == old(data[..])
    {
      var o := DepthOffset(width, x, y);
      if o >= data.Length {
        return false;
      }
      data[o] := z;
      ok := true;
    }
  }
}
