/** Points, corner lists and axis-aligned boxes over `real` coordinates.
    Rounding is not modelled: the code only takes minima, maxima, differences
    and one quotient of coordinates. */
module Geometry {

  datatype Vec3 = Vec3(x: real, y: real, z: real)

  /** A bounding-box corner list; Blender always reports eight corners, the
      model only needs there to be at least one. */
  type Corners = s: seq<Vec3> | |s| > 0 witness [Vec3(0.0, 0.0, 0.0)]

  /** Python's `min` and `max` of two reals. */
  function Min(a: real, b: real): real { if b < a then b else a }
  function Max(a: real, b: real): real { if b > a then b else a }

  /** Axis 0, 1, 2 of a point: x, y, z (the `corner[i]` of the source). */
  function Coord(v: Vec3, axis: nat): real
    requires axis < 3
  {
    if axis == 0 then v.x else if axis == 1 then v.y else v.z
  }

  /** Smallest coordinate of a non-empty corner list along one axis. */
  function MinAlong(s: seq<Vec3>, axis: nat): (m: real)
    requires |s| > 0 && axis < 3
    ensures forall k :: 0 <= k < |s| ==> m <= Coord(s[k], axis)
    decreases |s|
  {
    if |s| == 1 then Coord(s[0], axis)
    else
      var rest := MinAlong(s[1..], axis);
      assert forall k :: 1 <= k < |s| ==> s[k] == s[1..][k - 1];
      if Coord(s[0], axis) <= rest then Coord(s[0], axis) else rest
  }

  /** Largest coordinate of a non-empty corner list along one axis. */
  function MaxAlong(s: seq<Vec3>, axis: nat): (m: real)
    requires |s| > 0 && axis < 3
    ensures forall k :: 0 <= k < |s| ==> Coord(s[k], axis) <= m
    decreases |s|
  {
    if |s| == 1 then Coord(s[0], axis)
    else
      var rest := MaxAlong(s[1..], axis);
      assert forall k :: 1 <= k < |s| ==> s[k] == s[1..][k - 1];
      if Coord(s[0], axis) >= rest then Coord(s[0], axis) else rest
  }

  /** Both extremes are coordinates of some corner. */
  lemma {:induction false} ExtremesAttained(s: seq<Vec3>, axis: nat)
    requires |s| > 0 && axis < 3
    ensures exists k :: 0 <= k < |s| && MinAlong(s, axis) == Coord(s[k], axis)
    ensures exists k :: 0 <= k < |s| && MaxAlong(s, axis) == Coord(s[k], axis)
    decreases |s|
  {
    if |s| > 1 {
      ExtremesAttained(s[1..], axis);
      var i :| 0 <= i < |s[1..]| && MinAlong(s[1..], axis) == Coord(s[1..][i], axis);
      var j :| 0 <= j < |s[1..]| && MaxAlong(s[1..], axis) == Coord(s[1..][j], axis);
      assert s[1..][i] == s[i + 1] && s[1..][j] == s[j + 1];
    } else {
      assert MinAlong(s, axis) == Coord(s[0], axis);
    }
  }

  /** Extent (max minus min) of a corner list along one axis. */
  function Extent(s: seq<Vec3>, axis: nat): (e: real)
    requires |s| > 0 && axis < 3
    ensures e >= 0.0
  {
    MaxAlong(s, axis) - MinAlong(s, axis)
  }

  /** The extent is the largest distance between two corners along the
      axis: no two corners are further apart, and some two are exactly
      that far apart. */
  lemma ExtentIsSpread(s: seq<Vec3>, axis: nat)
    requires |s| > 0 && axis < 3
    ensures forall j, k :: 0 <= j < |s| && 0 <= k < |s| ==> Coord(s[k], axis) - Coord(s[j], axis) <= Extent(s, axis)
    ensures exists j, k :: 0 <= j < |s| && 0 <= k < |s| && Coord(s[k], axis) - Coord(s[j], axis) == Extent(s, axis)
  {
    ExtremesAttained(s, axis);
    var j :| 0 <= j < |s| && MinAlong(s, axis) == Coord(s[j], axis);
    var k :| 0 <= k < |s| && MaxAlong(s, axis) == Coord(s[k], axis);
    assert Coord(s[k], axis) - Coord(s[j], axis) == Extent(s, axis);
  }

  /** An axis-aligned box given by its lower and upper corner. */
  datatype Box = Box(lo: Vec3, hi: Vec3)

  /** The point is inside the box on every axis. */
  predicate Contains(b: Box, p: Vec3) {
    forall axis :: 0 <= axis < 3 ==> Coord(b.lo, axis) <= Coord(p, axis) <= Coord(b.hi, axis)
  }

  /** `b` is the tightest box around the non-empty point list `s`: it holds
      every point, and each of its six bounds is the coordinate of some point. */
  predicate Tight(b: Box, s: seq<Vec3>) {
    && (forall k :: 0 <= k < |s| ==> Contains(b, s[k]))
    && (forall axis :: 0 <= axis < 3 ==>
          (exists k :: 0 <= k < |s| && Coord(s[k], axis) == Coord(b.lo, axis)))
    && (forall axis :: 0 <= axis < 3 ==>
          (exists k :: 0 <= k < |s| && Coord(s[k], axis) == Coord(b.hi, axis)))
  }
}
