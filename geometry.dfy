/**
 * Positions of the game: integer grid cells (bomb, explosion, spawn and portal
 * positions), unit direction vectors, and the player's continuous position.
 */
module Geometry {

  /** A grid cell: an integer (x, y) position. */
  datatype Cell = Cell(x: int, y: int)

  /** A direction vector with integer components (Vector2.up, .down, .left, .right, default zero). */
  datatype Dir = Dir(dx: int, dy: int)

  const Up: Dir := Dir(0, 1)
  const Down: Dir := Dir(0, -1)
  const Left: Dir := Dir(-1, 0)
  const Right: Dir := Dir(1, 0)
  /** `default(Vector2)`, the direction a Center explosion is created with. */
  const Zero: Dir := Dir(0, 0)

  /** A continuous position (the player's transform.position, projected on the plane). */
  datatype Point = Point(x: real, y: real)

  /** The cell `origin + dir * i`. */
  function Offset(origin: Cell, dir: Dir, i: int): Cell
  {
    Cell(origin.x + dir.dx * i, origin.y + dir.dy * i)
  }

  /** The squared Euclidean distance between a cell and a point. */
  function DistSq(c: Cell, p: Point): real
  {
    (c.x as real - p.x) * (c.x as real - p.x) + (c.y as real - p.y) * (c.y as real - p.y)
  }

  /** The squared Euclidean distance between two cells. */
  function CellDistSq(a: Cell, b: Cell): int
  {
    (a.x - b.x) * (a.x - b.x) + (a.y - b.y) * (a.y - b.y)
  }

  /** `Vector2.Distance(a, b) >= d`, stated on the squared distance `dsq` so that no root is needed. */
  predicate DistanceAtLeast(dsq: real, d: real)
  {
    d <= 0.0 || dsq >= d * d
  }
}
