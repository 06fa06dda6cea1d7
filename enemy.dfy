/**
 * An enemy (Enemy.cs): it loses health when damaged and dies at or below 0,
 * which may call DropRandomUpgrade, tells the game manager it died, and destroys it.
 * Its movement is snapped to one axis at a time.
 */
module Enemies {

  import opened Geometry
  import opened Damage
  import opened Collections
  import opened Game

  function Abs(f: real): real
  {
    if f >= 0.0 then f else -f
  }

  /** Mathf.Sign: 1 for zero and positive values, -1 for negative ones. */
  function Sign(f: real): int
  {
    if f >= 0.0 then 1 else -1
  }

  /** GetAxisAlignedDirection: the dominant axis of the direction, with its sign; ties go vertical. */
  function AxisAlignedDirection(x: real, y: real): Dir
  {
    if Abs(x) > Abs(y) then Dir(Sign(x), 0) else Dir(0, Sign(y))
  }

  /**
   * The axis direction is horizontal exactly when |x| > |y| (so ties are
   * vertical), and it is always a unit step: one component is 0 and the
   * other is 1 or -1, with the sign of the chosen component (0 counts as
   * positive).
   */
  lemma AxisAlignedIsUnitStep(x: real, y: real)
    ensures var d := AxisAlignedDirection(x, y);
      && (d.dy == 0 <==> Abs(x) > Abs(y))
      && (d.dx == 0 <==> Abs(x) <= Abs(y))
      && (d.dx == 0) != (d.dy == 0)
      && (d == Up || d == Down || d == Left || d == Right)
      && (d.dx != 0 ==> (d.dx > 0 <==> x >= 0.0))
      && (d.dy != 0 ==> (d.dy > 0 <==> y >= 0.0))
  {
  }

  class Enemy {
    /** The enemy's instance handle, as listed by the game manager. */
    const handle: nat
    const damage: int
    /** possibleDrops.Length. */
    const dropCount: nat
    var health: int
    /** Destroy(gameObject) has been requested (it takes effect at the end of the frame). */
    var destroyed: bool
    /** How many times DropRandomUpgrade has been called for this enemy. */
    var drops: nat

    constructor (handle: nat, health: int, damage: int, dropCount: nat)
      ensures this.handle == handle && this.health == health && this.damage == damage
      ensures this.dropCount == dropCount && !destroyed && drops == 0
    {
      this.handle := handle;
      this.health := health;
      this.damage := damage;
      this.dropCount := dropCount;
      destroyed := false;
      drops := 0;
    }

    /**
     * TakeDamage: health drops by exactly the damage, and the enemy dies
     * exactly when the new health is at or below 0. Dying reports the enemy
     * to the manager, which counts the kill only if the enemy is still listed.
     * `withinDropChance` is the outcome of the random drop roll.
     */
    method TakeDamage(amount: int, gm: GameManager?, withinDropChance: bool) returns (died: bool)
      requires gm != null ==> gm.Valid()
      modifies this`health, this`destroyed, this`drops, Managed(gm)`activeEnemies, Managed(gm)`totalEnemiesKilled, Managed(gm)`events
      ensures health == old(health) - amount
      ensures died <==> health <= 0
      ensures destroyed == (old(destroyed) || died)
      ensures drops == old(drops) + (if died && withinDropChance && dropCount > 0 then 1 else 0)
      ensures gm != null ==> gm.Valid()
      ensures gm != null && !died ==> unchanged(gm)
      ensures gm != null && died ==> handle !in gm.activeEnemies
      ensures gm != null && died && old(handle in gm.activeEnemies) ==>
                gm.totalEnemiesKilled == old(gm.totalEnemiesKilled) + 1
                && gm.activeEnemies == RemoveFirst(old(gm.activeEnemies), handle)
                && gm.events == old(gm.events) + [EnemiesCountChanged(|gm.activeEnemies|), TotalKillsChanged(gm.totalEnemiesKilled)]
      ensures gm != null && died && old(handle !in gm.activeEnemies) ==> unchanged(gm)
    {
      health := health - amount;
      died := health <= 0;
      if died {
        Die(gm, withinDropChance);
      }
    }

    /** ApplyDamage (IDamageDealer): the target takes this enemy's own damage. */
    method ApplyDamage(target: Target) returns (d: Delivery)
      ensures d.target == target && d.amount == damage
    {
      d := Delivery(target, damage);
    }

    /** Die: maybe call DropRandomUpgrade, notify the manager, then destroy the enemy. */
    method Die(gm: GameManager?, withinDropChance: bool)
      requires gm != null ==> gm.Valid()
      modifies this`drops, this`destroyed, Managed(gm)`activeEnemies, Managed(gm)`totalEnemiesKilled, Managed(gm)`events
      ensures destroyed
      ensures health == old(health)
      ensures drops == old(drops) + (if withinDropChance && dropCount > 0 then 1 else 0)
      ensures gm != null ==> gm.Valid() && handle !in gm.activeEnemies
      ensures gm != null && old(handle in gm.activeEnemies) ==>
                gm.totalEnemiesKilled == old(gm.totalEnemiesKilled) + 1
                && gm.activeEnemies == RemoveFirst(old(gm.activeEnemies), handle)
                && gm.events == old(gm.events) + [EnemiesCountChanged(|gm.activeEnemies|), TotalKillsChanged(gm.totalEnemiesKilled)]
      ensures gm != null && old(handle !in gm.activeEnemies) ==> unchanged(gm)
    {
      var dropped := TryDropUpgrade(withinDropChance);
      if dropped {
        drops := drops + 1;
      }
      if gm != null {
        gm.OnEnemyDied(handle);
      }
      destroyed := true;
    }

    /** TryDropUpgrade: DropRandomUpgrade is called exactly when the roll succeeds and possibleDrops is non-empty. */
    method TryDropUpgrade(withinDropChance: bool) returns (dropped: bool)
      ensures dropped <==> withinDropChance && dropCount > 0
    {
      dropped := withinDropChance && dropCount > 0;
    }
  }
}
