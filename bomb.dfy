/**
 * The bomb (Bomb.cs): armed at Start with its default delay, radius and
 * damage, it explodes once when the delay has elapsed. The explosion is a
 * Center cell at the bomb followed by four rays, in the order down, left,
 * right, up, each walking outward up to `radius` cells and stopping at the
 * first cell that holds an indestructible or destructible obstacle; that
 * blocking cell still gets an End explosion.
 */
module Bombs {

  import opened Wrappers
  import opened Geometry
  import opened Explosions

  /** One CreateExplosion call: an explosion instantiated at pos with its role, direction and damage. */
  datatype ExplosionSpawn = ExplosionSpawn(pos: Cell, kind: ExplosionType, dir: Dir, damage: int)

  /** A collider tag. */
  type Tag = string

  /**
   * CheckForObstacle, given the collider (if any) that the overlap query finds
   * at the cell: it blocks only when tagged Indestructible or Destructible.
   */
  predicate IsObstacle(hit: Option<Tag>)
  {
    hit.Some? && (hit.value == "Indestructible" || hit.value == "Destructible")
  }

  /**
   * The cells CreateExplosionLine creates from step i onward: the cell
   * `origin + dir * i`, then, unless it was blocked, the rest of the ray.
   * `hitAt` is the overlap query; `roleOf` is GetExplosionTypeForPosition.
   */
  function Ray(origin: Cell, dir: Dir, radius: int, damage: int,
               hitAt: Cell -> Option<Tag>, roleOf: (int, Dir) -> ExplosionType, i: int): seq<ExplosionSpawn>
    decreases radius - i + 1
  {
    if i > radius then []
    else
      var pos := Offset(origin, dir, i);
      if IsObstacle(hitAt(pos)) then [ExplosionSpawn(pos, End, dir, damage)]
      else [ExplosionSpawn(pos, roleOf(i, dir), dir, damage)] + Ray(origin, dir, radius, damage, hitAt, roleOf, i + 1)
  }

  /** Explode: the Center cell, then the rays down, left, right and up. */
  function ExplosionCells(origin: Cell, radius: int, damage: int,
                          hitAt: Cell -> Option<Tag>, roleOf: (int, Dir) -> ExplosionType): seq<ExplosionSpawn>
  {
    [ExplosionSpawn(origin, Center, Zero, damage)]
    + Ray(origin, Down, radius, damage, hitAt, roleOf, 1)
    + Ray(origin, Left, radius, damage, hitAt, roleOf, 1)
    + Ray(origin, Right, radius, damage, hitAt, roleOf, 1)
    + Ray(origin, Up, radius, damage, hitAt, roleOf, 1)
  }

  /** A ray from step i has at most `radius - i + 1` cells, and none when i is past the radius. */
  lemma {:induction false} RayLength(origin: Cell, dir: Dir, radius: int, damage: int,
                                     hitAt: Cell -> Option<Tag>, roleOf: (int, Dir) -> ExplosionType, i: int)
    ensures |Ray(origin, dir, radius, damage, hitAt, roleOf, i)| <= if i > radius then 0 else radius - i + 1
    ensures |Ray(origin, dir, radius, damage, hitAt, roleOf, i)| == 0 <==> i > radius
    decreases radius - i + 1
  {
    if i <= radius && !IsObstacle(hitAt(Offset(origin, dir, i))) {
      RayLength(origin, dir, radius, damage, hitAt, roleOf, i + 1);
    }
  }

  /**
   * The k-th cell of a ray from step i: it stands at step i + k (so steps go
   * up by one and never pass the radius), carries the ray's direction and the
   * bomb's damage; every cell but the last is unblocked and has the role the
   * role helper gives; the last is either a blocked cell with role End or the
   * unblocked cell at the radius.
   */
  lemma {:induction false} RayCellAt(origin: Cell, dir: Dir, radius: int, damage: int,
                                     hitAt: Cell -> Option<Tag>, roleOf: (int, Dir) -> ExplosionType, i: int, k: int)
    requires 0 <= k < |Ray(origin, dir, radius, damage, hitAt, roleOf, i)|
    ensures var r := Ray(origin, dir, radius, damage, hitAt, roleOf, i);
      && r[k].pos == Offset(origin, dir, i + k)
      && r[k].dir == dir
      && r[k].damage == damage
      && i + k <= radius
      && (k < |r| - 1 ==> !IsObstacle(hitAt(r[k].pos)) && r[k].kind == roleOf(i + k, dir))
      && (k == |r| - 1 ==>
            (IsObstacle(hitAt(r[k].pos)) && r[k].kind == End)
            || (!IsObstacle(hitAt(r[k].pos)) && r[k].kind == roleOf(i + k, dir) && i + k == radius))
    decreases k
  {
    var r := Ray(origin, dir, radius, damage, hitAt, roleOf, i);
    if k > 0 {
      var rest := Ray(origin, dir, radius, damage, hitAt, roleOf, i + 1);
      assert r == [r[0]] + rest;
      RayCellAt(origin, dir, radius, damage, hitAt, roleOf, i + 1, k - 1);
      assert r[k] == rest[k - 1];
    } else if |r| > 1 {
      assert !IsObstacle(hitAt(Offset(origin, dir, i)));
    } else if !IsObstacle(hitAt(Offset(origin, dir, i))) {
      RayLength(origin, dir, radius, damage, hitAt, roleOf, i + 1);
    }
  }

  /**
   * The first obstacle at step j ends the ray there: the ray has exactly the
   * cells for steps i..j, the last being an End cell at the obstacle, and no
   * cell beyond it.
   */
  lemma {:induction false} RayStopsAtFirstObstacle(origin: Cell, dir: Dir, radius: int, damage: int,
                                                   hitAt: Cell -> Option<Tag>, roleOf: (int, Dir) -> ExplosionType,
                                                   i: int, j: int)
    requires i <= j <= radius
    requires IsObstacle(hitAt(Offset(origin, dir, j)))
    requires forall m :: i <= m < j ==> !IsObstacle(hitAt(Offset(origin, dir, m)))
    ensures var r := Ray(origin, dir, radius, damage, hitAt, roleOf, i);
      |r| == j - i + 1 && r[|r| - 1] == ExplosionSpawn(Offset(origin, dir, j), End, dir, damage)
    decreases j - i
  {
    if i < j {
      RayStopsAtFirstObstacle(origin, dir, radius, damage, hitAt, roleOf, i + 1, j);
    }
  }

  /**
   * With no obstacle on steps i..radius the ray reaches the radius: one cell
   * per step, each with the role the role helper gives.
   */
  lemma {:induction false} RayUnobstructed(origin: Cell, dir: Dir, radius: int, damage: int,
                                           hitAt: Cell -> Option<Tag>, roleOf: (int, Dir) -> ExplosionType, i: int)
    requires forall m :: i <= m <= radius ==> !IsObstacle(hitAt(Offset(origin, dir, m)))
    ensures var r := Ray(origin, dir, radius, damage, hitAt, roleOf, i);
      && |r| == (if i > radius then 0 else radius - i + 1)
      && forall k :: 0 <= k < |r| ==> r[k] == ExplosionSpawn(Offset(origin, dir, i + k), roleOf(i + k, dir), dir, damage)
    decreases radius - i + 1
  {
    if i <= radius {
      RayUnobstructed(origin, dir, radius, damage, hitAt, roleOf, i + 1);
      var r := Ray(origin, dir, radius, damage, hitAt, roleOf, i);
      var rest := Ray(origin, dir, radius, damage, hitAt, roleOf, i + 1);
      forall k | 0 < k < |r|
        ensures r[k] == ExplosionSpawn(Offset(origin, dir, i + k), roleOf(i + k, dir), dir, damage)
      {
        assert r[k] == rest[k - 1];
      }
    }
  }

  /** Every cell of a ray carries the bomb's damage and the ray's direction. */
  lemma {:induction false} RayUniform(origin: Cell, dir: Dir, radius: int, damage: int,
                                      hitAt: Cell -> Option<Tag>, roleOf: (int, Dir) -> ExplosionType, i: int)
    ensures forall c :: c in Ray(origin, dir, radius, damage, hitAt, roleOf, i) ==> c.damage == damage && c.dir == dir
    decreases radius - i + 1
  {
    if i <= radius && !IsObstacle(hitAt(Offset(origin, dir, i))) {
      RayUniform(origin, dir, radius, damage, hitAt, roleOf, i + 1);
    }
  }

  /**
   * An explosion starts with the Center cell at the bomb, has at most
   * 1 + 4 * radius cells (only the Center when radius is 0), and every cell
   * carries the bomb's one damage value.
   */
  lemma ExplosionShape(origin: Cell, radius: int, damage: int,
                       hitAt: Cell -> Option<Tag>, roleOf: (int, Dir) -> ExplosionType)
    ensures var cells := ExplosionCells(origin, radius, damage, hitAt, roleOf);
      && cells[0] == ExplosionSpawn(origin, Center, Zero, damage)
      && (radius >= 0 ==> |cells| <= 1 + 4 * radius)
      && (radius <= 0 ==> cells == [ExplosionSpawn(origin, Center, Zero, damage)])
      && forall c :: c in cells ==> c.damage == damage
  {
    RayLength(origin, Down, radius, damage, hitAt, roleOf, 1);
    RayLength(origin, Left, radius, damage, hitAt, roleOf, 1);
    RayLength(origin, Right, radius, damage, hitAt, roleOf, 1);
    RayLength(origin, Up, radius, damage, hitAt, roleOf, 1);
    RayUniform(origin, Down, radius, damage, hitAt, roleOf, 1);
    RayUniform(origin, Left, radius, damage, hitAt, roleOf, 1);
    RayUniform(origin, Right, radius, damage, hitAt, roleOf, 1);
    RayUniform(origin, Up, radius, damage, hitAt, roleOf, 1);
  }

  /**
   * With no obstacle anywhere, an explosion of radius r >= 0 covers exactly
   * 1 + 4r cells: every ray runs its full length, and its k-th cell stands at
   * step k + 1 with the role the role helper gives there.
   */
  lemma OpenFieldCount(origin: Cell, radius: int, damage: int, roleOf: (int, Dir) -> ExplosionType)
    requires radius >= 0
    ensures |ExplosionCells(origin, radius, damage, NoObstacle, roleOf)| == 1 + 4 * radius
    ensures forall d: Dir :: |Ray(origin, d, radius, damage, NoObstacle, roleOf, 1)| == radius
    ensures forall d: Dir, k :: 0 <= k < radius ==>
      Ray(origin, d, radius, damage, NoObstacle, roleOf, 1)[k]
        == ExplosionSpawn(Offset(origin, d, k + 1), roleOf(k + 1, d), d, damage)
  {
    forall d: Dir
      ensures |Ray(origin, d, radius, damage, NoObstacle, roleOf, 1)| == radius
      ensures forall k :: 0 <= k < radius ==>
        Ray(origin, d, radius, damage, NoObstacle, roleOf, 1)[k]
          == ExplosionSpawn(Offset(origin, d, k + 1), roleOf(k + 1, d), d, damage)
    {
      RayUnobstructed(origin, d, radius, damage, NoObstacle, roleOf, 1);
    }
  }

  /** The overlap query of an open field: no collider anywhere. */
  function NoObstacle(c: Cell): Option<Tag>
  {
    None
  }

  /** Only the Indestructible and Destructible tags block; any other collider, or none, does not. */
  lemma BlockingTags(hit: Option<Tag>)
    ensures hit.None? ==> !IsObstacle(hit)
    ensures hit.Some? && hit.value != "Indestructible" && hit.value != "Destructible" ==> !IsObstacle(hit)
    ensures hit == Some("Indestructible") || hit == Some("Destructible") ==> IsObstacle(hit)
  {
  }

  /** A role helper that marks the step at the radius End and every other step Side. */
  function EndAtRadius(radius: int): (int, Dir) -> ExplosionType
  {
    (i: int, d: Dir) => if i == radius then End else Side
  }

  /**
   * A bomb at (0,0) with radius 2 and no obstacles, under EndAtRadius: nine
   * cells, the Center, then for each ray a Side cell and an End cell.
   */
  lemma OpenFieldRadiusTwo(damage: int)
    ensures ExplosionCells(Cell(0, 0), 2, damage, (c: Cell) => None, EndAtRadius(2)) ==
      [ ExplosionSpawn(Cell(0, 0), Center, Zero, damage),
        ExplosionSpawn(Cell(0, -1), Side, Down, damage), ExplosionSpawn(Cell(0, -2), End, Down, damage),
        ExplosionSpawn(Cell(-1, 0), Side, Left, damage), ExplosionSpawn(Cell(-2, 0), End, Left, damage),
        ExplosionSpawn(Cell(1, 0), Side, Right, damage), ExplosionSpawn(Cell(2, 0), End, Right, damage),
        ExplosionSpawn(Cell(0, 1), Side, Up, damage), ExplosionSpawn(Cell(0, 2), End, Up, damage) ]
  {
    OpenRayRadiusTwo(damage, Down);
    OpenRayRadiusTwo(damage, Left);
    OpenRayRadiusTwo(damage, Right);
    OpenRayRadiusTwo(damage, Up);
  }

  /** One unobstructed ray of radius 2 under EndAtRadius: a Side cell, then an End cell. */
  lemma OpenRayRadiusTwo(damage: int, d: Dir)
    ensures Ray(Cell(0, 0), d, 2, damage, (c: Cell) => None, EndAtRadius(2), 1)
         == [ExplosionSpawn(Offset(Cell(0, 0), d, 1), Side, d, damage),
             ExplosionSpawn(Offset(Cell(0, 0), d, 2), End, d, damage)]
  {
    var hitAt: Cell -> Option<Tag> := (c: Cell) => None;
    var roleOf := EndAtRadius(2);
    var r3 := Ray(Cell(0, 0), d, 2, damage, hitAt, roleOf, 3);
    assert r3 == [];
    var r2 := Ray(Cell(0, 0), d, 2, damage, hitAt, roleOf, 2);
    assert r2 == [ExplosionSpawn(Offset(Cell(0, 0), d, 2), End, d, damage)] + r3;
    var r1 := Ray(Cell(0, 0), d, 2, damage, hitAt, roleOf, 1);
    assert r1 == [ExplosionSpawn(Offset(Cell(0, 0), d, 1), Side, d, damage)] + r2;
  }

  /** The same bomb with a destructible wall at (0,1): the up ray is the single End cell at (0,1). */
  lemma WallAboveRadiusTwo(damage: int)
    ensures var hitAt := (c: Cell) => if c == Cell(0, 1) then Some("Destructible") else None;
      Ray(Cell(0, 0), Up, 2, damage, hitAt, EndAtRadius(2), 1) == [ExplosionSpawn(Cell(0, 1), End, Up, damage)]
  {
  }

  /** Five appends in a row append their concatenation. */
  lemma ExplodeAppends(e0: seq<ExplosionSpawn>, e1: seq<ExplosionSpawn>, e2: seq<ExplosionSpawn>,
                       e3: seq<ExplosionSpawn>, e4: seq<ExplosionSpawn>, e5: seq<ExplosionSpawn>,
                       all: seq<ExplosionSpawn>, a: seq<ExplosionSpawn>, b: seq<ExplosionSpawn>,
                       c: seq<ExplosionSpawn>, d: seq<ExplosionSpawn>, e: seq<ExplosionSpawn>)
    requires e1 == e0 + a && e2 == e1 + b && e3 == e2 + c && e4 == e3 + d && e5 == e4 + e
    requires all == a + b + c + d + e
    ensures e5 == e0 + all
  {
  }

  class Bomb {
    /** Where the bomb was placed (it never moves). */
    const origin: Cell
    const defaultExplosionDelay: nat
    const defaultExplosionRadius: int
    const defaultDamage: int

    var explosionDelay: nat
    var explosionRadius: int
    var damage: int
    /** Ticks the ExplodeAfterDelay wait still has to run. */
    var delayLeft: int
    /** Explode has run and the bomb destroyed itself. */
    var exploded: bool
    /** The explosions the bomb has instantiated, in creation order. */
    var emitted: seq<ExplosionSpawn>

    /** Instantiation followed by Start: Initialize with the defaults, which arms the delay. */
    constructor Start(origin: Cell, defaultExplosionDelay: nat, defaultExplosionRadius: int, defaultDamage: int)
      ensures this.origin == origin
      ensures this.defaultExplosionDelay == defaultExplosionDelay
      ensures this.defaultExplosionRadius == defaultExplosionRadius
      ensures this.defaultDamage == defaultDamage
      ensures explosionDelay == defaultExplosionDelay && explosionRadius == defaultExplosionRadius
      ensures damage == defaultDamage && delayLeft == defaultExplosionDelay
      ensures !exploded && emitted == []
    {
      this.origin := origin;
      this.defaultExplosionDelay := defaultExplosionDelay;
      this.defaultExplosionRadius := defaultExplosionRadius;
      this.defaultDamage := defaultDamage;
      emitted := [];
      exploded := false;
      new;
      Initialize(defaultExplosionDelay, defaultExplosionRadius, defaultDamage);
    }

    /** Initialize: record the settings and start the delay. */
    method Initialize(delay: nat, radius: int, damage: int)
      modifies this`explosionDelay, this`explosionRadius, this`damage, this`delayLeft
      ensures explosionDelay == delay && explosionRadius == radius && this.damage == damage
      ensures delayLeft == delay
    {
      explosionDelay := delay;
      explosionRadius := radius;
      this.damage := damage;
      delayLeft := delay;
    }

    /**
     * One frame of dt ticks for the ExplodeAfterDelay wait: a destroyed bomb
     * does nothing; otherwise the wait runs down and, once it has elapsed,
     * the bomb explodes, which it can do only once.
     */
    method Tick(dt: nat, hitAt: Cell -> Option<Tag>, roleOf: (int, Dir) -> ExplosionType)
      modifies this`delayLeft, this`exploded, this`emitted
      ensures old(exploded) ==> delayLeft == old(delayLeft) && exploded && emitted == old(emitted)
      ensures !old(exploded) ==> delayLeft == old(delayLeft) - dt
      ensures !old(exploded) && delayLeft <= 0 ==>
                exploded && emitted == old(emitted) + ExplosionCells(origin, explosionRadius, damage, hitAt, roleOf)
      ensures !old(exploded) && delayLeft > 0 ==> !exploded && emitted == old(emitted)
    {
      if exploded {
        return;
      }
      delayLeft := delayLeft - dt;
      if delayLeft <= 0 {
        Explode(hitAt, roleOf);
      }
    }

    /** Explode: the Center cell, the four rays in order, then Destroy(gameObject). */
    method Explode(hitAt: Cell -> Option<Tag>, roleOf: (int, Dir) -> ExplosionType)
      requires !exploded
      modifies this`exploded, this`emitted
      ensures exploded
      ensures emitted == old(emitted) + ExplosionCells(origin, explosionRadius, damage, hitAt, roleOf)
    {
      ghost var e0 := emitted;
      CreateExplosion(origin, Center, Zero);
      ghost var e1 := emitted;
      CreateExplosionLine(Down, hitAt, roleOf);
      ghost var e2 := emitted;
      CreateExplosionLine(Left, hitAt, roleOf);
      ghost var e3 := emitted;
      CreateExplosionLine(Right, hitAt, roleOf);
      ghost var e4 := emitted;
      CreateExplosionLine(Up, hitAt, roleOf);
      exploded := true;
      ExplodeAppends(e0, e1, e2, e3, e4, emitted, ExplosionCells(origin, explosionRadius, damage, hitAt, roleOf),
        [ExplosionSpawn(origin, Center, Zero, damage)],
        Ray(origin, Down, explosionRadius, damage, hitAt, roleOf, 1),
        Ray(origin, Left, explosionRadius, damage, hitAt, roleOf, 1),
        Ray(origin, Right, explosionRadius, damage, hitAt, roleOf, 1),
        Ray(origin, Up, explosionRadius, damage, hitAt, roleOf, 1));
    }

    /** CreateExplosionLine: steps 1..radius along dir, stopping after the first blocked cell. */
    method CreateExplosionLine(direction: Dir, hitAt: Cell -> Option<Tag>, roleOf: (int, Dir) -> ExplosionType)
      modifies this`emitted
      ensures emitted == old(emitted) + Ray(origin, direction, explosionRadius, damage, hitAt, roleOf, 1)
    {
      var i := 1;
      while i <= explosionRadius
        invariant 1 <= i
        invariant emitted + Ray(origin, direction, explosionRadius, damage, hitAt, roleOf, i)
               == old(emitted) + Ray(origin, direction, explosionRadius, damage, hitAt, roleOf, 1)
        decreases explosionRadius - i
      {
        var explosionPos := Offset(origin, direction, i);
        if IsObstacle(hitAt(explosionPos)) {
          CreateExplosion(explosionPos, End, direction);
          break;
        }
        var kind := roleOf(i, direction);
        CreateExplosion(explosionPos, kind, direction);
        i := i + 1;
      }
    }

    /** CreateExplosion: one explosion carrying the bomb's damage. */
    method CreateExplosion(position: Cell, kind: ExplosionType, direction: Dir)
      modifies this`emitted
      ensures emitted == old(emitted) + [ExplosionSpawn(position, kind, direction, damage)]
    {
      emitted := emitted + [ExplosionSpawn(position, kind, direction, damage)];
    }
  }
}
