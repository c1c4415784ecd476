// src/physics.rs: an object's position and Euler orientation, and the four
// setters that move and turn it.  Absolute orientations are clamped into
// [-180, 180]; relative ones are wrapped by a pair of `while` loops that leave
// the angle in [180, 540).  The same clamp and wrap loops recur, over f32, in
// src/mesh/mesh_translate.rs, which uses the functions and the method below.

module Physics {

  /** `Point3D` and `Rotation3D`: three coordinates or three angles. */
  datatype Triple = Triple(x: real, y: real, z: real)

  const Origin: Triple := Triple(0.0, 0.0, 0.0)

  /** `a.clamp(-180.0, 180.0)`. */
  function ClampAngle(a: real): (r: real)
    ensures -180.0 <= r <= 180.0
    ensures -180.0 <= a <= 180.0 ==> r == a
    ensures a < -180.0 ==> r == -180.0
    ensures a > 180.0 ==> r == 180.0
  {
    if a < -180.0 then -180.0 else if a > 180.0 then 180.0 else a
  }

  /** The angle the two wrap loops leave: the one value in [180, 540) that differs from a
      by a whole number of turns. */
  function WrapAngle(a: real): real
  {
    a - 360.0 * ((a - 180.0) / 360.0).Floor as real
  }

  /** The wrapped angle lies in [180, 540) and is a whole number of turns away from a. */
  lemma WrapAngleRange(a: real)
    ensures 180.0 <= WrapAngle(a) < 540.0
    ensures ((a - WrapAngle(a)) / 360.0).Floor as real == (a - WrapAngle(a)) / 360.0
  {
    var q := (a - 180.0) / 360.0;
    var f := q.Floor;
    assert f as real <= q < f as real + 1.0;
    assert a - WrapAngle(a) == 360.0 * f as real;
    assert (a - WrapAngle(a)) / 360.0 == f as real;
  }

  /** Any angle in [180, 540) reached from a by whole turns is the wrapped angle. */
  lemma WrapAngleUnique(a: real, b: real, k: int)
    requires 180.0 <= b < 540.0 && b == a + 360.0 * k as real
    ensures WrapAngle(a) == b
  {
    var q := (a - 180.0) / 360.0;
    assert q == (b - 180.0) / 360.0 - k as real;
    var p := (b - 180.0) / 360.0;
    assert 0.0 <= p < 1.0;
    assert p.Floor == 0;
    assert q.Floor == -k;
  }

  /** Wrapping an angle already in [180, 540) leaves it alone, so wrapping twice is the
      same as wrapping once. */
  lemma WrapAngleIdempotent(a: real)
    ensures WrapAngle(WrapAngle(a)) == WrapAngle(a)
  {
    WrapAngleRange(a);
    WrapAngleUnique(WrapAngle(a), WrapAngle(a), 0);
  }

  /** Wrapping depends only on the angle modulo a whole turn. */
  lemma WrapAnglePeriodic(a: real, k: int)
    ensures WrapAngle(a + 360.0 * k as real) == WrapAngle(a)
  {
    WrapAngleRange(a);
    var f := ((a - WrapAngle(a)) / 360.0).Floor;
    assert a == WrapAngle(a) + 360.0 * f as real;
    WrapAngleUnique(a + 360.0 * k as real, WrapAngle(a), -(f + k));
  }

  /** `while a > 180 { a -= 360 }` followed by `while a < 180 { a += 360 }`. */
  method Wrap(a: real) returns (r: real)
    ensures r == WrapAngle(a)
  {
    r := a;
    ghost var k: int := 0;
    while r > 180.0
      invariant r == a + 360.0 * k as real
      decreases r.Floor
    {
      r := r - 360.0;
      k := k - 1;
    }
    assert r <= 180.0;
    while r < 180.0
      invariant r == a + 360.0 * k as real && r < 540.0
      decreases (180.0 - r).Floor
    {
      r := r + 360.0;
      k := k + 1;
    }
    WrapAngleUnique(a, r, k);
  }

  /** `PhysicalState`: where the object is and how it is turned. */
  class PhysicalState {
    var position: Triple
    var orientation: Triple

    /** `PhysicalState::new`: at the origin, with no rotation. */
    constructor ()
      ensures position == Origin && orientation == Origin
    {
      position := Origin;
      orientation := Origin;
    }

    /** A copy, as `#[derive(Clone)]` gives. */
    constructor Clone(other: PhysicalState)
      ensures position == other.position && orientation == other.orientation
    {
      position := other.position;
      orientation := other.orientation;
    }

    /** `set_absolute_position`. */
    method SetAbsolutePosition(x: real, y: real, z: real)
      modifies this
      ensures position == Triple(x, y, z) && orientation == old(orientation)
    {
      position := position.(x := x);
      position := position.(y := y);
      position := position.(z := z);
    }

    /** `set_relative_position`: the deltas are added. */
    method SetRelativePosition(x: real, y: real, z: real)
      modifies this
      ensures position == Triple(old(position.x) + x, old(position.y) + y, old(position.z) + z)
      ensures orientation == old(orientation)
    {
      position := position.(x := position.x + x);
      position := position.(y := position.y + y);
      position := position.(z := position.z + z);
    }

    /** `set_absolute_orientation`: each angle clamped into [-180, 180]. */
    method SetAbsoluteOrientation(x: real, y: real, z: real)
      modifies this
      ensures orientation == Triple(ClampAngle(x), ClampAngle(y), ClampAngle(z))
      ensures position == old(position)
    {
      orientation := orientation.(x := ClampAngle(x));
      orientation := orientation.(y := ClampAngle(y));
      orientation := orientation.(z := ClampAngle(z));
    }

    /** `set_relative_orientation`: the deltas are added, x is wrapped once and y twice by
        the same pair of loops; z is never wrapped. */
    method SetRelativeOrientation(x: real, y: real, z: real)
      modifies this
      ensures orientation == Triple(WrapAngle(old(orientation.x) + x),
                                    WrapAngle(old(orientation.y) + y),
                                    old(orientation.z) + z)
      ensures position == old(position)
    {
      orientation := Triple(orientation.x + x, orientation.y + y, orientation.z + z);
      var ax := Wrap(orientation.x);
      orientation := orientation.(x := ax);
      var ay := Wrap(orientation.y);
      orientation := orientation.(y := ay);
      ay := Wrap(orientation.y);
      orientation := orientation.(y := ay);
      WrapAngleIdempotent(old(orientation.y) + y);
    }
  }
}
