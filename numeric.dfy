// Shared helpers: an Option type, the integer widths the renderer casts to,
// and Rust's float-to-integer casts written out over the reals.

module Numeric {

  datatype Option<T> = None | Some(value: T)

  /** `u8`. */
  newtype Byte = x: int | 0 <= x <= 0xff

  const I32_MIN: int := -0x8000_0000
  const I32_MAX: int := 0x7fff_ffff
  const U8_MAX: int := 0xff
  const U32_MAX: int := 0xffff_ffff
  /** `usize::MAX` on the 64-bit targets the renderer is built for. */
  const USIZE_MAX: int := 0xffff_ffff_ffff_ffff

  function Abs(x: int): nat
  {
    if x < 0 then -x else x
  }

  function AbsReal(x: real): real
  {
    if x < 0.0 then -x else x
  }

  function Min(a: int, b: int): int
  {
    if a <= b then a else b
  }

  function Max(a: int, b: int): int
  {
    if a <= b then b else a
  }

  /** `Ord::clamp`, which panics when `lo > hi`. */
  function Clamp(x: int, lo: int, hi: int): (r: int)
    requires lo <= hi
    ensures lo <= r <= hi
    ensures lo <= x <= hi ==> r == x
  {
    if x < lo then lo else if x > hi then hi else x
  }

  /** Integer part of a real, discarding the fraction toward zero. */
  function TruncTowardZero(r: real): int
  {
    if r >= 0.0 then r.Floor else -((-r).Floor)
  }

  /** Rust's `f.round()`: to the nearest integer, halves away from zero. */
  function RoundHalfAway(r: real): int
  {
    if r >= 0.0 then (r + 0.5).Floor else -((-r + 0.5).Floor)
  }

  /** Rust's `f as i32`: truncate toward zero, saturating at the i32 bounds. */
  function CastI32(r: real): (n: int)
    ensures I32_MIN <= n <= I32_MAX
  {
    Clamp(TruncTowardZero(r), I32_MIN, I32_MAX)
  }

  /** Rust's `f as u8`: truncate toward zero, saturating at 0 and 255. */
  function CastU8(r: real): (n: int)
    ensures 0 <= n <= U8_MAX
  {
    Clamp(TruncTowardZero(r), 0, U8_MAX)
  }

  /** `n as i32` from a wider integer: two's-complement wrap-around. */
  function WrapI32(n: int): (r: int)
    ensures I32_MIN <= r <= I32_MAX
    ensures (r - n) % 0x1_0000_0000 == 0
  {
    (n - I32_MIN) % 0x1_0000_0000 + I32_MIN
  }

  /** `n as u32` from a wider or signed integer: wrap-around modulo 2^32. */
  function WrapU32(n: int): (r: nat)
    ensures r <= U32_MAX
    ensures 0 <= n <= U32_MAX ==> r == n
  {
    n % 0x1_0000_0000
  }

  /** A value already in range is kept. */
  lemma WrapI32InRange(n: int)
    requires I32_MIN <= n <= I32_MAX
    ensures WrapI32(n) == n
  {
  }

  /** Rust's `f.round() as usize`: saturating at 0 and usize::MAX. */
  function RoundUsize(r: real): (n: nat)
    ensures n <= USIZE_MAX
    ensures 0.0 <= r ==> n as real <= r + 0.5
    ensures r.Floor < USIZE_MAX ==> r - 0.5 <= n as real
  {
    Clamp(RoundHalfAway(r), 0, USIZE_MAX)
  }

  lemma TruncTowardZeroMonotone(a: real, b: real)
    requires a <= b
    ensures TruncTowardZero(a) <= TruncTowardZero(b)
  {
    if a < 0.0 && b < 0.0 {
      assert (-b).Floor <= (-a).Floor;
    }
  }

  lemma CastI32Monotone(a: real, b: real)
    requires a <= b
    ensures CastI32(a) <= CastI32(b)
  {
    TruncTowardZeroMonotone(a, b);
  }

  /** A fraction strictly between 0 and 1 of a positive n lies strictly between 0 and n. */
  lemma FractionBelow(t: real, n: real)
    requires 0.0 < t < 1.0 && 0.0 < n
    ensures 0.0 < t * n < n
  {
    assert n - t * n == (1.0 - t) * n;
  }

  lemma MulNonNegative(a: real, h: real)
    requires 0.0 <= a && 0.0 <= h
    ensures 0.0 <= a * h
  {
  }

  lemma MulAtMostTwice(a: real, h: real)
    requires a <= 2.0 && 0.0 <= h
    ensures a * h <= 2.0 * h
  {
  }

  /** NDC to screen on one axis: `((c + 1.0) / 2.0) * size as f32`. */
  function NdcToScreen(c: real, size: nat): real
  {
    (c + 1.0) / 2.0 * size as real
  }

  /** A coordinate strictly inside (−1, 1) scales to strictly between 0 and size. */
  lemma ScaleInside(c: real, size: nat)
    requires -1.0 < c < 1.0 && 0 < size
    ensures 0.0 < NdcToScreen(c, size) < size as real
  {
    FractionBelow((c + 1.0) / 2.0, size as real);
  }
}
