// The pixel addressing shared by `draw_pixel` in src/window.rs and src/frame.rs:
// four bytes per pixel in a flat RGBA frame, rows counted from the bottom edge
// `height`, the offset computed in u32 arithmetic, and the four bytes taken with
// `get_mut(..).unwrap()`.

module Surface {
  import opened Numeric
  import B = Buffer

  /** `(((height - y) * width) + x) * 4` in u32: the first byte of pixel (x, y), or `None`
      where the subtraction underflows or a step overflows (a panic). */
  function Element(width: nat, height: nat, x: nat, y: nat): (e: Option<nat>)
    ensures e.Some? ==> e.value % 4 == 0 && e.value <= U32_MAX
  {
    if y > height then None
    else
      var row := height - y;
      if row * width > U32_MAX then None
      else if row * width + x > U32_MAX then None
      else if (row * width + x) * 4 > U32_MAX then None
      else Some((row * width + x) * 4)
  }

  /** As every term is non-negative, checking each step of the offset for overflow
      amounts to checking the final value: pixel (x, y) lies x pixels into the row
      height − y rows from the start of the frame. */
  lemma ElementClosedForm(width: nat, height: nat, x: nat, y: nat)
    ensures var e := Element(width, height, x, y);
            (e.Some? <==> y <= height && ((height - y) * width + x) * 4 <= U32_MAX)
            && (e.Some? ==> e.value == ((height - y) * width + x) * 4)
  {
  }

  /** The four bytes of pixel (x, y) can be addressed: the u32 offset does not
      overflow and the slice lies inside a frame of len bytes. */
  predicate Fits(w: nat, h: nat, len: nat, x: nat, y: nat)
  {
    var e := Element(w, h, x, y);
    e.Some? && e.value + 4 <= len
  }

  /** Rows are counted down from `height`, so the bottom row y = 0 addresses the pixel
      just past the end of a width·height frame and panics, while every row from 1 to
      height addresses a pixel inside it when the frame fits in u32 offsets. */
  lemma RowAddressing(w: nat, h: nat, x: nat, y: nat)
    requires 0 < w && x < w && y <= h && w * h * 4 <= U32_MAX
    ensures y == 0 ==> !Fits(w, h, w * h * 4, x, y)
    ensures 0 < y ==> Fits(w, h, w * h * 4, x, y)
  {
    ElementClosedForm(w, h, x, y);
    var row := h - y;
    if 0 < y {
      B.MulBound(row, h, w);
    } else {
      assert (h * w + x) * 4 + 4 > w * h * 4;
    }
  }

  /** `pixel.copy_from_slice(&colour)` on the four bytes from e. */
  method Put4(a: array<Byte>, e: nat, c: seq<Byte>)
    requires e + 4 <= a.Length && |c| == 4
    modifies a
    ensures a[..] == B.Replace4(old(a[..]), e, c)
  {
    a[e] := c[0];
    a[e + 1] := c[1];
    a[e + 2] := c[2];
    a[e + 3] := c[3];
  }
}
