/**
 * One explosion cell (Explosion.cs): on Initialize it picks its sprite and
 * rotation from its role and direction, stores the bomb's damage, and calls
 * TakeDamage with that damage on every damageable collider it overlaps.
 */
module Explosions {

  import opened Wrappers
  import opened Geometry
  import opened Damage

  /**
   * The role of an explosion cell. Center, Side and End are the named values;
   * Unnamed stands for any other value the enum can hold, which the sprite
   * switch sends to its default arm.
   */
  datatype ExplosionType = Center | Side | End | Unnamed(code: int)

  /** The sprites an explosion can show: the three role sprites and the prefab's own. */
  datatype Sprite = CenterSprite | SideSprite | EndSprite | PrefabSprite

  /** One collider returned by the overlap query: its IDamageable component, if it has one. */
  datatype Hit = Hit(damageable: Option<Target>)

  /** SetSprite: the sprite for a role; an unnamed role keeps the current sprite. */
  function SpriteFor(t: ExplosionType, current: Sprite): Sprite
  {
    match t
    case Center => CenterSprite
    case Side => SideSprite
    case End => EndSprite
    case Unnamed(_) => current
  }

  /** SetRotation: the z rotation in degrees for a role and direction; 0 unless a case sets it. */
  function RotationAngle(t: ExplosionType, d: Dir): int
  {
    match t
    case Center => 0
    case Side => if d == Up || d == Down then 0 else 90
    case End =>
      if d == Up then 0
      else if d == Down then 180
      else if d == Left then 90
      else if d == Right then -90
      else 0
    case Unnamed(_) => 0
  }

  predicate IsCardinal(d: Dir)
  {
    d == Up || d == Down || d == Left || d == Right
  }

  function Opposite(d: Dir): Dir
  {
    Dir(-d.dx, -d.dy)
  }

  /** Each named role has its own sprite, whatever was shown before; an unnamed role changes nothing. */
  lemma SpriteSelection(t: ExplosionType, u: ExplosionType, a: Sprite, b: Sprite)
    ensures !t.Unnamed? && !u.Unnamed? ==> (SpriteFor(t, a) == SpriteFor(u, b) <==> t == u)
    ensures !t.Unnamed? ==> SpriteFor(t, a) != PrefabSprite
    ensures t.Unnamed? ==> SpriteFor(t, a) == a
  {
  }

  /** A Center cell is never rotated, whatever direction it was given. */
  lemma CenterIsUnrotated(d: Dir)
    ensures RotationAngle(Center, d) == 0
  {
  }

  /**
   * A Side cell is oriented by its axis only: 0 on the vertical axis, 90 on
   * any other direction, so a ray and its opposite look the same.
   */
  lemma SideFollowsAxis(d: Dir)
    ensures RotationAngle(Side, d) == (if d.dx == 0 && (d.dy == 1 || d.dy == -1) then 0 else 90)
    ensures RotationAngle(Side, d) == RotationAngle(Side, Opposite(d))
  {
  }

  /**
   * An End cell points along its ray: opposite cardinal directions differ by
   * half a turn, perpendicular ones by a quarter turn; a non-cardinal
   * direction (such as the default zero vector) leaves the angle at 0.
   */
  lemma EndPointsAlongRay(d: Dir, e: Dir)
    ensures IsCardinal(d) ==> (RotationAngle(End, d) - RotationAngle(End, Opposite(d))) % 360 == 180
    ensures IsCardinal(d) && IsCardinal(e) && d != e && e != Opposite(d) ==>
              (RotationAngle(End, d) - RotationAngle(End, e)) % 180 == 90
    ensures !IsCardinal(d) ==> RotationAngle(End, d) == 0
    ensures IsCardinal(d) && IsCardinal(e) ==> (RotationAngle(End, d) == RotationAngle(End, e) <==> d == e)
  {
  }

  /** The damageable targets among the hits, in hit order (one per damageable hit entry). */
  function DamageableTargets(hits: seq<Hit>): seq<Target>
  {
    if hits == [] then []
    else
      DamageableTargets(hits[..|hits| - 1])
      + (if hits[|hits| - 1].damageable.Some? then [hits[|hits| - 1].damageable.value] else [])
  }

  /** How many hit entries carry the IDamageable component of t. */
  function HitsOn(hits: seq<Hit>, t: Target): nat
  {
    if hits == [] then 0
    else HitsOn(hits[..|hits| - 1], t) + (if hits[|hits| - 1].damageable == Some(t) then 1 else 0)
  }

  /** How many of the hit entries have an IDamageable component at all. */
  function DamageableCount(hits: seq<Hit>): nat
  {
    if hits == [] then 0
    else DamageableCount(hits[..|hits| - 1]) + (if hits[|hits| - 1].damageable.Some? then 1 else 0)
  }

  /**
   * Every target is damaged once per hit entry that carries it, only
   * damageable hits are damaged, and a target no hit carries is untouched.
   */
  lemma {:induction false} DamageOncePerHit(hits: seq<Hit>, t: Target)
    ensures multiset(DamageableTargets(hits))[t] == HitsOn(hits, t)
    ensures |DamageableTargets(hits)| == DamageableCount(hits)
  {
    if hits != [] {
      DamageOncePerHit(hits[..|hits| - 1], t);
    }
  }

  class Explosion {
    var sprite: Sprite
    var angle: int
    var explosionDamage: int

    /** A fresh instance of the prefab: its own sprite, unrotated, `_explosionDamage = 0`. */
    constructor ()
      ensures sprite == PrefabSprite && angle == 0 && explosionDamage == 0
    {
      sprite := PrefabSprite;
      angle := 0;
      explosionDamage := 0;
    }

    /**
     * Initialize: sprite, rotation and stored damage are set first, then the
     * damage is applied, so every target receives exactly `damage`.
     */
    method Initialize(t: ExplosionType, direction: Dir, damage: int, hits: seq<Hit>)
      returns (deliveries: seq<Delivery>)
      modifies this
      ensures sprite == SpriteFor(t, old(sprite))
      ensures angle == RotationAngle(t, direction)
      ensures explosionDamage == damage
      ensures |deliveries| == |DamageableTargets(hits)|
      ensures forall k :: 0 <= k < |deliveries| ==>
                deliveries[k] == Delivery(DamageableTargets(hits)[k], damage)
    {
      SetSprite(t);
      SetRotation(t, direction);
      explosionDamage := damage;
      deliveries := ApplyDamageToSurroundings(hits);
    }

    method SetSprite(t: ExplosionType)
      modifies this`sprite
      ensures sprite == SpriteFor(t, old(sprite))
    {
      sprite := match t
        case Center => CenterSprite
        case Side => SideSprite
        case End => EndSprite
        case Unnamed(_) => sprite;
    }

    method SetRotation(t: ExplosionType, direction: Dir)
      modifies this`angle
      ensures angle == RotationAngle(t, direction)
    {
      var a := 0;
      match t {
        case Center =>
          a := 0;
        case Side =>
          if direction == Up || direction == Down {
            a := 0;
          } else {
            a := 90;
          }
        case End =>
          if direction == Up {
            a := 0;
          } else if direction == Down {
            a := 180;
          } else if direction == Left {
            a := 90;
          } else if direction == Right {
            a := -90;
          }
        case Unnamed(_) =>
      }
      angle := a;
    }

    /**
     * ApplyDamageToSurroundings over the colliders the overlap query found:
     * one TakeDamage call with the stored damage per damageable hit, in hit order.
     */
    method ApplyDamageToSurroundings(hits: seq<Hit>) returns (deliveries: seq<Delivery>)
      ensures |deliveries| == |DamageableTargets(hits)|
      ensures forall k :: 0 <= k < |deliveries| ==>
                deliveries[k] == Delivery(DamageableTargets(hits)[k], explosionDamage)
    {
      deliveries := [];
      for i := 0 to |hits|
        invariant |deliveries| == |DamageableTargets(hits[..i])|
        invariant forall k :: 0 <= k < |deliveries| ==>
                    deliveries[k] == Delivery(DamageableTargets(hits[..i])[k], explosionDamage)
      {
        assert hits[..i + 1][..i] == hits[..i];
        var hit := hits[i];
        if hit.damageable.Some? {
          var d := ApplyDamage(hit.damageable.value);
          deliveries := deliveries + [d];
        }
      }
      assert hits[..|hits|] == hits;
    }

    /** ApplyDamage (IDamageDealer): the target takes the stored damage. */
    method ApplyDamage(target: Target) returns (d: Delivery)
      ensures d.target == target && d.amount == explosionDamage
    {
      d := Delivery(target, explosionDamage);
    }
  }
}
