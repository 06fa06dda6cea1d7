/** A destructible wall (DestructibleWall.cs): it loses health when damaged and is destroyed at or below 0. */
module Walls {

  class DestructibleWall {
    var health: int
    /** destroyEffect != null. */
    const hasDestroyEffect: bool
    /** Destroy(gameObject) has been requested. */
    var destroyed: bool
    /** How many destroy effects have been instantiated. */
    var effectsSpawned: nat

    /** A wall with the given health; the prefab default is 3. */
    constructor (health: int, hasDestroyEffect: bool)
      ensures this.health == health && this.hasDestroyEffect == hasDestroyEffect
      ensures !destroyed && effectsSpawned == 0
    {
      this.health := health;
      this.hasDestroyEffect := hasDestroyEffect;
      destroyed := false;
      effectsSpawned := 0;
    }

    /** TakeDamage: health drops by exactly the damage; the wall is destroyed exactly when it is then at or below 0. */
    method TakeDamage(damage: int) returns (destroyedNow: bool)
      modifies this`health, this`destroyed, this`effectsSpawned
      ensures health == old(health) - damage
      ensures destroyedNow <==> health <= 0
      ensures destroyed == (old(destroyed) || destroyedNow)
      ensures effectsSpawned == old(effectsSpawned) + (if destroyedNow && hasDestroyEffect then 1 else 0)
    {
      health := health - damage;
      destroyedNow := health <= 0;
      if destroyedNow {
        DestroyWall();
      }
    }

    /** DestroyWall: the effect is instantiated only when there is one; the wall is destroyed either way. */
    method DestroyWall()
      modifies this`destroyed, this`effectsSpawned
      ensures destroyed
      ensures effectsSpawned == old(effectsSpawned) + (if hasDestroyEffect then 1 else 0)
    {
      if hasDestroyEffect {
        effectsSpawned := effectsSpawned + 1;
      }
      destroyed := true;
    }
  }

  /** A wall with the default health 3 survives two unit hits and is destroyed by the third. */
  method ThreeUnitHitsDestroyDefaultWall(hasDestroyEffect: bool) returns (afterTwo: bool, afterThree: bool)
    ensures !afterTwo && afterThree
  {
    var wall := new DestructibleWall(3, hasDestroyEffect);
    var hit := wall.TakeDamage(1);
    hit := wall.TakeDamage(1);
    afterTwo := wall.destroyed;
    hit := wall.TakeDamage(1);
    afterThree := wall.destroyed;
  }
}
