// src/geometry/orientation.rs: a D-tuple of angles addressed by rotation axis.

module Orientation {
  import opened Numeric

  datatype RotationAxis = Roll | Pitch | Yaw | N(i: nat)

  /** `Orientation<T, D>([T; D])`; the angles are kept as reals. */
  datatype Orientation = Orientation(angles: seq<real>)

  /** `Orientation::new` stores the angles exactly as given. */
  function New(angles: seq<real>): (o: Orientation)
    ensures o.angles == angles
  {
    Orientation(angles)
  }

  /** `Default`: every angle is the default angle, zero. */
  function Default(d: nat): (o: Orientation)
    ensures |o.angles| == d && forall k :: 0 <= k < d ==> o.angles[k] == 0.0
  {
    Orientation(seq(d, _ => 0.0))
  }

  /** The array slot each axis addresses. */
  function Slot(axis: RotationAxis): (k: nat)
  {
    match axis
    case Roll => 0
    case Pitch => 1
    case Yaw => 2
    case N(i) => i
  }

  /** `o[axis]`; a slot past the end panics (`None`). */
  function Get(o: Orientation, axis: RotationAxis): (r: Option<real>)
    ensures r.Some? <==> Slot(axis) < |o.angles|
    ensures r.Some? ==> r.value == o.angles[Slot(axis)]
  {
    if Slot(axis) < |o.angles| then Some(o.angles[Slot(axis)]) else None
  }

  /** `o[axis] = x` through `IndexMut`, with the same mapping: only that angle changes. */
  function Set(o: Orientation, axis: RotationAxis, x: real): (r: Option<Orientation>)
    ensures r.Some? <==> Slot(axis) < |o.angles|
    ensures r.Some? ==> (Get(r.value, axis) == Some(x) && |r.value.angles| == |o.angles|
      && forall k :: 0 <= k < |o.angles| && k != Slot(axis) ==> r.value.angles[k] == o.angles[k])
  {
    if Slot(axis) < |o.angles| then Some(Orientation(o.angles[Slot(axis) := x])) else None
  }

  /** Roll, pitch and yaw are the first three angles, and `N(i)` is angle `i`. */
  lemma AxisMapping(o: Orientation, i: nat)
    requires |o.angles| == 3
    ensures Get(o, Roll) == Some(o.angles[0])
    ensures Get(o, Pitch) == Some(o.angles[1])
    ensures Get(o, Yaw) == Some(o.angles[2])
    ensures Get(o, N(i)) == if i < 3 then Some(o.angles[i]) else None
  {
  }

  /** A write followed by a read of the same axis gives the written angle, and a read of
      another axis is unaffected. */
  lemma SetThenGet(o: Orientation, a: RotationAxis, b: RotationAxis, x: real)
    requires Slot(a) < |o.angles|
    ensures Get(Set(o, a, x).value, a) == Some(x)
    ensures Slot(b) != Slot(a) ==> Get(Set(o, a, x).value, b) == Get(o, b)
  {
  }
}
