/** The player's boundary (PlayerBoundary.cs): every frame the position is clamped to a box, axis by axis. */
module Boundary {

  import opened Geometry

  /** The serialized limits: x in [xMin, xMax], y in [zMin, zMax]. */
  datatype Box = Box(xMin: real, xMax: real, zMin: real, zMax: real)

  /** Mathf.Clamp: min below the range, max above it, the value itself otherwise. */
  function Clamp(v: real, lo: real, hi: real): real
  {
    if v < lo then lo else if v > hi then hi else v
  }

  /** The position written back by Update. */
  function ClampPosition(p: Point, b: Box): Point
  {
    Point(Clamp(p.x, b.xMin, b.xMax), Clamp(p.y, b.zMin, b.zMax))
  }

  predicate Inside(p: Point, b: Box)
  {
    b.xMin <= p.x <= b.xMax && b.zMin <= p.y <= b.zMax
  }

  predicate WellFormed(b: Box)
  {
    b.xMin <= b.xMax && b.zMin <= b.zMax
  }

  /** With min <= max on both axes, the clamped position is inside the box. */
  lemma ClampedIsInside(p: Point, b: Box)
    requires WellFormed(b)
    ensures Inside(ClampPosition(p, b), b)
  {
  }

  /** A position already inside the box is unchanged. */
  lemma InsideUnchanged(p: Point, b: Box)
    requires Inside(p, b)
    ensures ClampPosition(p, b) == p
  {
  }

  /** With min <= max, clamping twice is clamping once. */
  lemma ClampIdempotent(p: Point, b: Box)
    requires WellFormed(b)
    ensures ClampPosition(ClampPosition(p, b), b) == ClampPosition(p, b)
  {
    ClampedIsInside(p, b);
    InsideUnchanged(ClampPosition(p, b), b);
  }

  /** Each axis is clamped on its own: the new x depends only on the old x, the new y only on the old y. */
  lemma AxesIndependent(p: Point, q: Point, b: Box)
    ensures p.x == q.x ==> ClampPosition(p, b).x == ClampPosition(q, b).x
    ensures p.y == q.y ==> ClampPosition(p, b).y == ClampPosition(q, b).y
  {
  }

  /** With min > max on an axis, clamping is not idempotent: Mathf.Clamp checks min first. */
  lemma InvertedBoxNotIdempotent()
    ensures var b := Box(1.0, 0.0, 0.0, 0.0);
      ClampPosition(ClampPosition(Point(0.5, 0.0), b), b) != ClampPosition(Point(0.5, 0.0), b)
  {
  }
}
